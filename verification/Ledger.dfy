/**
 Transactions and the transaction index: which outputs exist and which are spent.
 The functions say what connecting and disconnecting mean; the methods are the
 source's loops over `mapInputs` and `mapQueuedChanges`.
 */
module Ledger {
  import opened Basics

  datatype OutPoint = OutPoint(hash: Hash, n: nat) {
    predicate IsNull() {
      hash == 0 && n == 0xffff_ffff
    }
  }

  datatype TxOut = TxOut(value: int, emptyScript: bool, claim: Option<int>) {
    predicate IsEmpty() {
      value == 0 && emptyScript
    }
  }

  /** `purchases` is the total the transaction pays for staker registrations. */
  datatype Tx = Tx(id: Hash, vin: seq<OutPoint>, vout: seq<TxOut>, purchases: int, size: nat, sigOps: nat) {
    predicate IsCoinBase() {
      |vin| == 1 && vin[0].IsNull() && |vout| >= 1
    }

    predicate IsCoinStake() {
      |vin| > 0 && !vin[0].IsNull() && |vout| >= 2 && vout[0].IsEmpty()
    }
  }

  /** `CDiskTxPos`: where a transaction lies on disk. */
  datatype TxPos = NullPos | Pos(file: nat, blockPos: nat, txPos: nat)

  /** `CTxIndex`: one entry per output, null while the output is unspent. */
  datatype TxIndex = TxIndex(pos: TxPos, spent: seq<TxPos>)

  type Index = map<Hash, TxIndex>

  function FreshRecord(pos: TxPos, outputs: nat): TxIndex {
    TxIndex(pos, seq(outputs, _ => NullPos))
  }

  datatype Block = Block(hash: Hash, prev: Hash, file: nat, filePos: nat, header: nat, vtx: seq<Tx>, height: int, qpos: bool)

  function SizeOf(txs: seq<Tx>): nat {
    if txs == [] then 0 else SizeOf(txs[..|txs| - 1]) + txs[|txs| - 1].size
  }

  /** Disk position of transaction `i` of the block. */
  function PosOf(b: Block, i: nat): (p: TxPos)
    requires i <= |b.vtx|
  {
    Pos(b.file, b.filePos, b.filePos + b.header + SizeOf(b.vtx[..i]))
  }

  function Ids(txs: seq<Tx>): set<Hash> {
    set t | t in txs :: t.id
  }

  // ---------------------------------------------------------------- connecting

  predicate Spendable(view: Index, o: OutPoint) {
    o.hash in view && o.n < |view[o.hash].spent| && view[o.hash].spent[o.n].NullPos?
  }

  function Mark(view: Index, o: OutPoint, p: TxPos): Index
    requires o.hash in view && o.n < |view[o.hash].spent|
  {
    view[o.hash := view[o.hash].(spent := view[o.hash].spent[o.n := p])]
  }

  /** Spend the outpoints one after the other. */
  function SpendAll(view: Index, vin: seq<OutPoint>, p: TxPos): Option<Index> {
    if vin == [] then Some(view)
    else
      var v :- SpendAll(view, vin[..|vin| - 1], p);
      var o := vin[|vin| - 1];
      if Spendable(v, o) then Some(Mark(v, o, p)) else None
  }

  function ConnectTx(view: Index, tx: Tx, p: TxPos): Option<Index> {
    var v :- if tx.IsCoinBase() then Some(view) else SpendAll(view, tx.vin, p);
    Some(v[tx.id := FreshRecord(p, |tx.vout|)])
  }

  /** Connect the first `n` transactions of the block on top of `view`. */
  function ConnectTxs(view: Index, b: Block, n: nat): Option<Index>
    requires n <= |b.vtx|
  {
    if n == 0 then Some(view)
    else
      var v :- ConnectTxs(view, b, n - 1);
      ConnectTx(v, b.vtx[n - 1], PosOf(b, n - 1))
  }

  /** BIP 30: an id already in the index may be taken again only when it is fully spent. */
  predicate Overwritable(db: Index, id: Hash) {
    id in db ==> forall k :: 0 <= k < |db[id].spent| ==> !db[id].spent[k].NullPos?
  }

  predicate IdsAdmissible(db: Index, txs: seq<Tx>) {
    && (forall i, j :: 0 <= i < j < |txs| ==> txs[i].id != txs[j].id)
    && (forall i :: 0 <= i < |txs| ==> Overwritable(db, txs[i].id))
  }

  /** The effect of a block on the index, when its ids and its spending allow one. */
  function Apply(db: Index, b: Block): Option<Index> {
    if IdsAdmissible(db, b.vtx) then ConnectTxs(db, b, |b.vtx|) else None
  }

  // ------------------------------------------------------------- disconnecting

  /** Unmark the inputs in order; a missing record ends the walk without an error. */
  function Unspend(view: Index, vin: seq<OutPoint>): Option<Index>
    decreases |vin|
  {
    if vin == [] || vin[0].hash !in view then Some(view)
    else if vin[0].n >= |view[vin[0].hash].spent| then None
    else Unspend(Mark(view, vin[0], NullPos), vin[1..])
  }

  function UndoTx(view: Index, tx: Tx): Option<Index> {
    if tx.IsCoinBase() then Some(view) else Unspend(view, tx.vin)
  }

  /** Undo the inputs of the first `n` transactions, last transaction first. */
  function UndoTxs(view: Index, b: Block, n: nat): Option<Index>
    requires n <= |b.vtx|
    decreases n
  {
    if n == 0 then Some(view)
    else
      var v :- UndoTx(view, b.vtx[n - 1]);
      UndoTxs(v, b, n - 1)
  }

  function Undo(db: Index, b: Block): Option<Index> {
    var v :- UndoTxs(db, b, |b.vtx|);
    Some(v - Ids(b.vtx))
  }

  // -------------------------------------------- connect then disconnect: proofs

  lemma SpendAllKeys(view: Index, vin: seq<OutPoint>, p: TxPos)
    requires SpendAll(view, vin, p).Some?
    ensures SpendAll(view, vin, p).value.Keys == view.Keys
    ensures forall o :: o in vin ==> o.hash in view
  {
    if vin != [] {
      SpendAllKeys(view, vin[..|vin| - 1], p);
    }
  }

  /** Every outpoint that was not spent keeps its mark, and record sizes never change. */
  lemma {:induction false} SpendAllAt(view: Index, vin: seq<OutPoint>, p: TxPos, h: Hash)
    requires SpendAll(view, vin, p).Some? && h in view && p != NullPos
    ensures h in SpendAll(view, vin, p).value
    ensures
      var r := SpendAll(view, vin, p).value[h];
      && r.pos == view[h].pos && |r.spent| == |view[h].spent|
      && (forall k :: 0 <= k < |r.spent| ==> r.spent[k] == if OutPoint(h, k) in vin then p else view[h].spent[k])
      && (forall k :: 0 <= k < |r.spent| && OutPoint(h, k) in vin ==> view[h].spent[k].NullPos?)
  {
    if vin != [] {
      var front, o := vin[..|vin| - 1], vin[|vin| - 1];
      SpendAllAt(view, front, p, h);
      assert vin == front + [o];
    }
  }

  /** No outpoint is spent twice by one transaction. */
  lemma {:induction false} SpendAllDistinct(view: Index, vin: seq<OutPoint>, p: TxPos)
    requires SpendAll(view, vin, p).Some? && p != NullPos
    ensures Distinct(vin)
  {
    if vin != [] {
      var front, o := vin[..|vin| - 1], vin[|vin| - 1];
      SpendAllDistinct(view, front, p);
      SpendAllKeys(view, front, p);
      SpendAllAt(view, front, p, o.hash);
      assert OutPoint(o.hash, o.n) == o;
      assert o !in front;
    }
  }

  ghost predicate SameExcept(v: Index, w: Index, ops: set<OutPoint>) {
    && v.Keys == w.Keys
    && (forall h :: h in v ==> v[h].pos == w[h].pos && |v[h].spent| == |w[h].spent|)
    && (forall h, k :: h in v && 0 <= k < |v[h].spent| && OutPoint(h, k) !in ops ==> v[h].spent[k] == w[h].spent[k])
  }

  /** Unspending a list whose records all exist clears exactly its outpoints. */
  lemma {:induction false} UnspendAt(view: Index, vin: seq<OutPoint>)
    requires forall o :: o in vin ==> o.hash in view && o.n < |view[o.hash].spent|
    ensures Unspend(view, vin).Some?
    ensures SameExcept(view, Unspend(view, vin).value, set o | o in vin)
    ensures forall o :: o in vin ==> Unspend(view, vin).value[o.hash].spent[o.n] == NullPos
    decreases |vin|
  {
    if vin != [] {
      var m := Mark(view, vin[0], NullPos);
      assert m.Keys == view.Keys;
      UnspendAt(m, vin[1..]);
      var r := Unspend(m, vin[1..]).value;
      assert vin == [vin[0]] + vin[1..];
      forall o | o in vin ensures r[o.hash].spent[o.n] == NullPos {
        if o !in vin[1..] {
          assert OutPoint(o.hash, o.n) == o;
        }
      }
    }
  }

  /** How many inputs the unspending walk reaches: all before the first whose record is missing. */
  function Walked(view: Index, vin: seq<OutPoint>): (n: nat)
    ensures n <= |vin| && (n < |vin| ==> vin[n].hash !in view)
    ensures forall i :: 0 <= i < n ==> vin[i].hash in view
    decreases |vin|
  {
    if vin == [] || vin[0].hash !in view then 0 else 1 + Walked(view, vin[1..])
  }

  /**
   The walk fails exactly when an input it reaches is out of range; otherwise it clears the marks of the inputs it
   reaches and touches nothing else, whatever comes after a missing record.
   */
  lemma {:induction false} UnspendIs(view: Index, vin: seq<OutPoint>)
    ensures
      var r, n := Unspend(view, vin), Walked(view, vin);
      && (r.Some? <==> forall i :: 0 <= i < n ==> vin[i].n < |view[vin[i].hash].spent|)
      && (r.Some? ==> SameExcept(view, r.value, set o | o in vin[..n]))
      && (r.Some? ==> forall o :: o in vin[..n] ==> r.value[o.hash].spent[o.n] == NullPos)
    decreases |vin|
  {
    var n := Walked(view, vin);
    if n > 0 {
      var reached := vin[..n];
      if forall i :: 0 <= i < n ==> vin[i].n < |view[vin[i].hash].spent| {
        forall o | o in reached ensures o.hash in view && o.n < |view[o.hash].spent| {
          var i :| 0 <= i < n && vin[i] == o;
        }
        UnspendAt(view, reached);
        StopsShort(view, vin, n);
      } else {
        FailsWithin(view, vin, n);
      }
    } else {
      assert vin[..0] == [];
    }
  }

  lemma {:induction false} StopsShort(view: Index, vin: seq<OutPoint>, n: nat)
    requires n == Walked(view, vin) && forall i :: 0 <= i < n ==> vin[i].n < |view[vin[i].hash].spent|
    ensures Unspend(view, vin) == Unspend(view, vin[..n])
    decreases |vin|
  {
    if n > 0 {
      var m := Mark(view, vin[0], NullPos);
      SameWalk(view, m, vin[1..]);
      assert forall i :: 0 <= i < n - 1 ==> vin[1..][i] == vin[i + 1];
      StopsShort(m, vin[1..], n - 1);
      assert vin[..n][1..] == vin[1..][..n - 1];
    }
  }

  lemma {:induction false} FailsWithin(view: Index, vin: seq<OutPoint>, n: nat)
    requires n == Walked(view, vin) && exists i :: 0 <= i < n && vin[i].n >= |view[vin[i].hash].spent|
    ensures Unspend(view, vin).None?
    decreases |vin|
  {
    var i :| 0 <= i < n && vin[i].n >= |view[vin[i].hash].spent|;
    if vin[0].n < |view[vin[0].hash].spent| {
      var m := Mark(view, vin[0], NullPos);
      SameWalk(view, m, vin[1..]);
      assert vin[1..][i - 1] == vin[i] && |m[vin[i].hash].spent| == |view[vin[i].hash].spent|;
      FailsWithin(m, vin[1..], n - 1);
    }
  }

  lemma {:induction false} SameWalk(view: Index, m: Index, vin: seq<OutPoint>)
    requires view.Keys == m.Keys
    ensures Walked(view, vin) == Walked(m, vin)
    decreases |vin|
  {
    if vin != [] && vin[0].hash in view {
      SameWalk(view, m, vin[1..]);
    }
  }

  /** Spending and then unspending the same outpoints gives every record back. */
  lemma UnspendInverse(v: Index, vin: seq<OutPoint>, p: TxPos, extra: Index)
    requires p != NullPos && SpendAll(v, vin, p).Some? && v.Keys !! extra.Keys
    ensures Unspend(SpendAll(v, vin, p).value + extra, vin) == Some(v + extra)
  {
    hide SpendAll, Unspend;
    var s := SpendAll(v, vin, p).value;
    SpendAllKeys(v, vin, p);
    forall o | o in vin ensures o.hash in s && o.n < |s[o.hash].spent| {
      SpendAllAt(v, vin, p, o.hash);
      SpendableInput(v, vin, p, o);
    }
    UnspendAt(s + extra, vin);
    var r := Unspend(s + extra, vin).value;
    forall h | h in r ensures r[h] == (v + extra)[h] {
      if h in v {
        SpendAllAt(v, vin, p, h);
        forall k | 0 <= k < |r[h].spent| ensures r[h].spent[k] == v[h].spent[k] {
          assert OutPoint(h, k).hash == h && OutPoint(h, k).n == k;
        }
        assert r[h].spent == v[h].spent;
      } else {
        forall k | 0 <= k < |r[h].spent| ensures r[h].spent[k] == extra[h].spent[k] {
          assert OutPoint(h, k) !in vin;
        }
        assert r[h].spent == extra[h].spent;
      }
    }
    assert r == v + extra;
  }

  /** Undoing one transaction's inputs gives back the view it was connected to, plus what was there besides. */
  lemma UndoTxInverse(v: Index, tx: Tx, p: TxPos, extra: Index)
    requires p != NullPos && ConnectTx(v, tx, p).Some?
    requires tx.id !in v && tx.id in extra && v.Keys !! extra.Keys
    ensures UndoTx(ConnectTx(v, tx, p).value + extra, tx) == Some(v + extra)
  {
    hide SpendAll, Unspend;
    var c := ConnectTx(v, tx, p).value;
    if tx.IsCoinBase() {
      assert c + extra == v + extra;
    } else {
      assert c + extra == SpendAll(v, tx.vin, p).value + extra;
      UnspendInverse(v, tx.vin, p, extra);
    }
  }

  lemma {:induction false} SpendableInput(view: Index, vin: seq<OutPoint>, p: TxPos, o: OutPoint)
    requires SpendAll(view, vin, p).Some? && p != NullPos && o in vin
    ensures Spendable(view, o)
  {
    var front, last := vin[..|vin| - 1], vin[|vin| - 1];
    if o in front {
      SpendableInput(view, front, p, o);
    } else {
      assert o == last;
      SpendAllKeys(view, front, p);
      SpendAllAt(view, front, p, o.hash);
    }
  }

  lemma ConnectTxsKeys(db: Index, b: Block, n: nat)
    requires n <= |b.vtx| && ConnectTxs(db, b, n).Some?
    ensures ConnectTxs(db, b, n).value.Keys == db.Keys + Ids(b.vtx[..n])
  {
    if n > 0 {
      ConnectTxsKeys(db, b, n - 1);
      var v := ConnectTxs(db, b, n - 1).value;
      if !b.vtx[n - 1].IsCoinBase() {
        SpendAllKeys(v, b.vtx[n - 1].vin, PosOf(b, n - 1));
      }
      IdsStep(b.vtx, n);
    }
  }

  lemma IdsStep(txs: seq<Tx>, n: nat)
    requires 0 < n <= |txs|
    ensures Ids(txs[..n]) == Ids(txs[..n - 1]) + {txs[n - 1].id}
    ensures Ids(txs[..n]) <= Ids(txs)
  {
    assert txs[..n] == txs[..n - 1] + [txs[n - 1]];
  }

  lemma IdNotBefore(txs: seq<Tx>, n: nat)
    requires 0 < n <= |txs| && forall i, j :: 0 <= i < j < |txs| ==> txs[i].id != txs[j].id
    ensures txs[n - 1].id !in Ids(txs[..n - 1])
  {
  }

  /** One transaction of the reverse walk: its own record joins what stays besides the view. */
  lemma UndoTxsStep(db: Index, b: Block, n: nat, extra: Index) returns (extra': Index)
    requires 0 < n <= |b.vtx| && ConnectTxs(db, b, n).Some?
    requires b.vtx[n - 1].id !in db.Keys + Ids(b.vtx[..n - 1])
    requires extra.Keys !! db.Keys + Ids(b.vtx[..n - 1]) + {b.vtx[n - 1].id}
    ensures extra'.Keys == extra.Keys + {b.vtx[n - 1].id}
    ensures UndoTxs(ConnectTxs(db, b, n).value + extra, b, n) == UndoTxs(ConnectTxs(db, b, n - 1).value + extra', b, n - 1)
  {
    hide ConnectTx, UndoTx, PosOf, Ids;
    var v, c := ConnectTxs(db, b, n - 1).value, ConnectTxs(db, b, n).value;
    var tx, p := b.vtx[n - 1], PosOf(b, n - 1);
    ConnectTxsKeys(db, b, n - 1);
    ConnectedId(v, tx, p);
    extra' := extra[tx.id := c[tx.id]];
    SameEntry(c, extra, tx.id);
    assert p != NullPos by {
      RealPos(b, n - 1);
    }
    UndoTxInverse(v, tx, p, extra');
  }

  lemma ConnectedId(v: Index, tx: Tx, p: TxPos)
    requires ConnectTx(v, tx, p).Some?
    ensures tx.id in ConnectTx(v, tx, p).value
  {
    hide SpendAll;
  }

  lemma SameEntry(c: Index, extra: Index, x: Hash)
    requires x in c && x !in extra
    ensures c + extra == c + extra[x := c[x]]
  {
  }

  lemma RealPos(b: Block, i: nat)
    requires i < |b.vtx|
    ensures PosOf(b, i) != NullPos
  {
  }

  lemma CutExtra(db: Index, extra: Index, ids: set<Hash>)
    requires extra.Keys <= ids && db.Keys !! ids
    ensures db + extra - ids == db
  {
  }

  /** Undoing the inputs of all transactions of a block whose ids were new. */
  lemma {:induction false} UndoTxsInverse(db: Index, b: Block, n: nat, extra: Index)
    requires n <= |b.vtx| && IdsAdmissible(db, b.vtx)
    requires db.Keys !! Ids(b.vtx) && ConnectTxs(db, b, n).Some?
    requires extra.Keys !! db.Keys && extra.Keys !! Ids(b.vtx[..n]) && extra.Keys <= Ids(b.vtx)
    ensures UndoTxs(ConnectTxs(db, b, n).value + extra, b, n).Some?
    ensures UndoTxs(ConnectTxs(db, b, n).value + extra, b, n).value - Ids(b.vtx) == db
    decreases n
  {
    hide ConnectTx, UndoTx, Ids, Overwritable;
    if n == 0 {
      CutExtra(db, extra, Ids(b.vtx));
    } else {
      IdsStep(b.vtx, n);
      IdNotBefore(b.vtx, n);
      var extra' := UndoTxsStep(db, b, n, extra);
      UndoTxsInverse(db, b, n - 1, extra');
    }
  }

  /**
   Disconnecting the block just connected restores the index exactly when none of
   its ids was there before, that is, when BIP 30's overwriting was not used.
   */
  lemma ConnectThenDisconnect(db: Index, b: Block)
    requires Apply(db, b).Some?
    ensures Undo(Apply(db, b).value, b) == Some(db) <==> db.Keys !! Ids(b.vtx)
  {
    if db.Keys !! Ids(b.vtx) {
      var n := |b.vtx|;
      var c := Apply(db, b).value;
      assert c + map[] == c;
      UndoTxsInverse(db, b, n, map[]);
    }
  }

  /** A fully spent record under id 1, and a coinbase that takes the id again: the record does not come back. */
  lemma OverwrittenIsLost()
    ensures
      var db: Index := map[1 := TxIndex(Pos(0, 0, 0), [Pos(0, 0, 1)])];
      var tx := Tx(1, [OutPoint(0, 0xffff_ffff)], [TxOut(5, false, None)], 0, 100, 0);
      var b := Block(9, 8, 0, 200, 80, [tx], 1, false);
      Apply(db, b).Some? && Undo(Apply(db, b).value, b) == Some(map[]) && map[] != db
  {
    var db: Index := map[1 := TxIndex(Pos(0, 0, 0), [Pos(0, 0, 1)])];
    var tx := Tx(1, [OutPoint(0, 0xffff_ffff)], [TxOut(5, false, None)], 0, 100, 0);
    var b := Block(9, 8, 0, 200, 80, [tx], 1, false);
    assert ConnectTxs(db, b, 0) == Some(db);
    assert ConnectTxs(db, b, 1) == Some(db[1 := FreshRecord(PosOf(b, 0), 1)]);
    var c := Apply(db, b).value;
    assert UndoTxs(c, b, 1) == UndoTxs(c, b, 0) == Some(c);
    assert tx in b.vtx && 1 in Ids(b.vtx);
    assert c - Ids(b.vtx) == map[];
    assert 1 in db;
  }

  // -------------------------------------------------------- the source's loops

  method DisconnectInputs(view: Index, tx: Tx) returns (r: Option<Index>)
    ensures r == UndoTx(view, tx)
  {
    if tx.IsCoinBase() {
      return Some(view);
    }
    var v := view;
    var i := 0;
    while i < |tx.vin|
      invariant 0 <= i <= |tx.vin|
      invariant Unspend(v, tx.vin[i..]) == Unspend(view, tx.vin)
    {
      var o := tx.vin[i];
      assert tx.vin[i..][1..] == tx.vin[i + 1..];
      if o.hash !in v {
        return Some(v);
      }
      if o.n >= |v[o.hash].spent| {
        return None;
      }
      v := Mark(v, o, NullPos);
      i := i + 1;
    }
    return Some(v);
  }

  /** Unspend in reverse order first; erase the records only when the whole block is undone. */
  method DisconnectBlock(db: Index, b: Block) returns (r: Option<Index>)
    ensures r == Undo(db, b)
  {
    var v := db;
    var i := |b.vtx|;
    while i > 0
      invariant 0 <= i <= |b.vtx|
      invariant UndoTxs(v, b, i) == UndoTxs(db, b, |b.vtx|)
    {
      i := i - 1;
      var u := DisconnectInputs(v, b.vtx[i]);
      if u.None? {
        return None;
      }
      v := u.value;
    }
    ghost var undone := v;
    while i < |b.vtx|
      invariant 0 <= i <= |b.vtx|
      invariant v == undone - Ids(b.vtx[..i])
    {
      assert b.vtx[..i + 1] == b.vtx[..i] + [b.vtx[i]];
      v := v - {b.vtx[i].id};
      i := i + 1;
    }
    assert b.vtx[..i] == b.vtx;
    return Some(v);
  }
}
