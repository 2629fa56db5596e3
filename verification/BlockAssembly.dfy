/**
 Choosing transactions for a new block: a transaction waits until every pooled parent has been
 taken, and each one taken is tried against the inputs left by those before it.
 */
module BlockAssembly {
  import opened Basics
  import opened Ledger
  import opened BlockConnect

  type Pool = map<Hash, Tx>

  /** The miner's settings, and the verdicts that do not concern dependencies or limits. */
  datatype Miner = Miner(
    rules: Rules, isFinal: Tx -> bool, feeworkOk: Tx -> bool, worthy: (Tx, nat) -> bool,
    p2shSigOps: Tx -> nat, maxSize: nat, fork: int)

  /** Pooled transactions are new, and each input is an existing output on chain or in the pool. */
  ghost predicate PoolSound(db: Index, src: Source) {
    && (forall h :: h in db ==> db[h].pos != IN_POOL)
    && (forall h :: h in src.pool ==> src.pool[h].id == h && h !in db)
    && (forall h, i :: h in src.pool && 0 <= i < |src.pool[h].vin| ==> InputExists(db, src, src.pool[h].vin[i]))
  }

  predicate InputExists(db: Index, src: Source, o: OutPoint) {
    if o.hash in db then Lookup(db, src, true, o.hash).Some? && InRange(Lookup(db, src, true, o.hash).value, o.n)
    else o.hash in src.pool && o.n < |src.pool[o.hash].vout|
  }

  /** The parents a transaction has to wait for. */
  function Waits(db: Index, tx: Tx): set<Hash> {
    set o | o in tx.vin && o.hash !in db :: o.hash
  }

  predicate Eligible(m: Miner, tx: Tx) {
    !tx.IsCoinBase() && !tx.IsCoinStake() && m.isFinal(tx)
  }

  // ------------------------------------------------------------ the scheduler

  /** The priority queue, what each orphan still waits for, and who waits for a given transaction. */
  datatype Sched = Sched(queue: seq<Hash>, deps: map<Hash, set<Hash>>, dependers: map<Hash, seq<Hash>>)

  predicate Listed(s: Sched, p: Hash, h: Hash) {
    p in s.dependers && h in s.dependers[p]
  }

  lemma ListedAppend(s: Sched, s': Sched, p: Hash, x: Hash)
    requires s'.dependers == s.dependers[p := (if p in s.dependers then s.dependers[p] else []) + [x]]
    ensures forall q, h :: Listed(s', q, h) <==> Listed(s, q, h) || (q == p && h == x)
  {
  }

  /** `known` are the pool entries looked at so far, `sel` those taken, `seen` those that left the queue. */
  ghost predicate SchedOk(m: Miner, db: Index, pool: Pool, s: Sched, known: set<Hash>, sel: set<Hash>, seen: set<Hash>) {
    && known <= pool.Keys && sel <= seen <= known
    && QueueOk(m, db, pool, s, known, seen)
    && (forall h :: h in s.deps <==> h in known && Eligible(m, pool[h]) && Waits(db, pool[h]) != {})
    && (forall h :: h in s.deps ==> s.deps[h] == Waits(db, pool[h]) - sel)
    && (forall h :: h in s.deps ==> (s.deps[h] == {} <==> h in s.queue || h in seen))
    && (forall p, h :: Listed(s, p, h) <==> h in s.deps && p in Waits(db, pool[h]))
  }

  ghost predicate QueueOk(m: Miner, db: Index, pool: Pool, s: Sched, known: set<Hash>, seen: set<Hash>)
    requires known <= pool.Keys
  {
    && Distinct(s.queue)
    && (forall h :: h in s.queue ==> h in known && h !in seen && Eligible(m, pool[h]))
    && (forall h :: h in s.queue && h !in s.deps ==> Waits(db, pool[h]) == {})
    && (forall h :: h in known && Eligible(m, pool[h]) && Waits(db, pool[h]) == {} && m.feeworkOk(pool[h]) ==>
          h in s.queue || h in seen)
  }

  /** A transaction in the queue has all its pooled parents taken. */
  lemma QueuedIsReady(m: Miner, db: Index, pool: Pool, s: Sched, sel: set<Hash>, seen: set<Hash>, h: Hash)
    requires SchedOk(m, db, pool, s, pool.Keys, sel, seen) && h in s.queue
    ensures h in pool && Eligible(m, pool[h]) && h !in seen && Waits(db, pool[h]) <= sel
    ensures sel <= seen <= pool.Keys
  {
    if h in s.deps {
      forall x | x in Waits(db, pool[h]) ensures x in sel {
        assert x !in s.deps[h];
      }
    }
  }

  /** Nothing is lost: what never left the queue when it ran dry was refused by feework, or waits for a parent not taken. */
  lemma DrainedIsComplete(m: Miner, db: Index, pool: Pool, s: Sched, sel: set<Hash>, seen: set<Hash>, h: Hash)
    requires SchedOk(m, db, pool, s, pool.Keys, sel, seen) && s.queue == []
    requires h in pool && Eligible(m, pool[h]) && h !in seen
    ensures if Waits(db, pool[h]) == {} then !m.feeworkOk(pool[h]) else !(Waits(db, pool[h]) <= sel)
  {
    if Waits(db, pool[h]) != {} {
      assert h in s.deps && s.deps[h] != {};
    }
  }

  /** The loop over one transaction's inputs while filling `vOrphan` and `mapDependers`. */
  method Register(db: Index, s: Sched, tx: Tx) returns (s': Sched)
    requires tx.id !in s.deps
    requires forall p :: !Listed(s, p, tx.id)
    ensures s'.queue == s.queue
    ensures s'.deps == if Waits(db, tx) == {} then s.deps else s.deps[tx.id := Waits(db, tx)]
    ensures forall p, h :: Listed(s', p, h) <==> Listed(s, p, h) || (h == tx.id && p in Waits(db, tx))
    ensures tx.id in s'.deps <==> Waits(db, tx) != {}
  {
    s' := s;
    ghost var waits: set<Hash> := {};
    var i := 0;
    while i < |tx.vin|
      invariant 0 <= i <= |tx.vin|
      invariant waits == set o | o in tx.vin[..i] && o.hash !in db :: o.hash
      invariant s'.queue == s.queue
      invariant s'.deps == if waits == {} then s.deps else s.deps[tx.id := waits]
      invariant forall p, h :: Listed(s', p, h) <==> Listed(s, p, h) || (h == tx.id && p in waits)
    {
      var p := tx.vin[i].hash;
      assert tx.vin[..i + 1] == tx.vin[..i] + [tx.vin[i]];
      if p !in db {
        var before := if tx.id in s'.deps then s'.deps[tx.id] else {};
        var list := if p in s'.dependers then s'.dependers[p] else [];
        ghost var was := s';
        s' := Sched(s'.queue, s'.deps[tx.id := before + {p}], s'.dependers[p := list + [tx.id]]);
        ListedAppend(was, s', p, tx.id);
        waits := waits + {p};
      }
      i := i + 1;
    }
    assert tx.vin[..i] == tx.vin;
  }

  /** One entry of the first pass: queued, put to wait, or left out. */
  method ClassifyOne(m: Miner, db: Index, ghost pool: Pool, s: Sched, ghost known: set<Hash>, tx: Tx) returns (s': Sched)
    requires tx.id in pool && pool[tx.id] == tx && tx.id !in known && known <= pool.Keys
    requires SchedOk(m, db, pool, s, known, {}, {})
    ensures SchedOk(m, db, pool, s', known + {tx.id}, {}, {})
  {
    hide SchedOk, Listed, Waits, Eligible;
    s' := s;
    FreshEntry(m, db, pool, s, known, tx.id);
    if Eligible(m, tx) {
      s' := Register(db, s, tx);
      SameListed(s', s'.queue + [tx.id]);
      if tx.id !in s'.deps && m.feeworkOk(tx) {
        s' := s'.(queue := s'.queue + [tx.id]);
      }
    }
    Registered(m, db, pool, s, s', known, tx.id);
  }

  lemma SameListed(s: Sched, queue: seq<Hash>)
    ensures forall p, h :: Listed(s.(queue := queue), p, h) <==> Listed(s, p, h)
  {
  }

  lemma SchedStart(m: Miner, db: Index, pool: Pool)
    ensures SchedOk(m, db, pool, Sched([], map[], map[]), {}, {}, {})
  {
  }

  /** The first `n` entries of a list. */
  ghost function Visited(order: seq<Hash>, n: nat): set<Hash>
    requires n <= |order|
  {
    set h | h in order[..n]
  }

  lemma VisitedNext(order: seq<Hash>, n: nat)
    requires n < |order| && Distinct(order)
    ensures Visited(order, n + 1) == Visited(order, n) + {order[n]} && order[n] !in Visited(order, n)
  {
    assert order[..n + 1] == order[..n] + [order[n]];
  }

  lemma VisitedAll(order: seq<Hash>, pool: Pool, n: nat)
    requires n <= |order| && forall h :: h in order <==> h in pool
    ensures Visited(order, n) <= pool.Keys && Visited(order, 0) == {} && Visited(order, |order|) == pool.Keys
    ensures n < |order| ==> order[n] in pool
  {
    assert order[..|order|] == order;
    forall h ensures h in Visited(order, n) ==> h in pool.Keys {
      assert h in order[..n] ==> h in order;
    }
    forall h ensures h in Visited(order, |order|) <==> h in pool.Keys {
      assert h in order <==> h in pool;
    }
    if n < |order| {
      assert order[n] in order;
    }
  }

  /** The first pass over the pool. `order` is the order in which the pool is visited. */
  method Classify(m: Miner, db: Index, pool: Pool, order: seq<Hash>) returns (s: Sched)
    requires Distinct(order) && (forall h :: h in order <==> h in pool) && forall h :: h in pool ==> pool[h].id == h
    ensures SchedOk(m, db, pool, s, pool.Keys, {}, {})
  {
    hide SchedOk, Visited, Distinct;
    s := Sched([], map[], map[]);
    SchedStart(m, db, pool);
    VisitedAll(order, pool, 0);
    var i := 0;
    while i < |order|
      invariant 0 <= i <= |order| && SchedOk(m, db, pool, s, Visited(order, i), {}, {})
    {
      VisitedNext(order, i);
      VisitedAll(order, pool, i);
      var h := order[i];
      assert h in pool && pool[h].id == h;
      s := ClassifyOne(m, db, pool, s, Visited(order, i), pool[h]);
      i := i + 1;
    }
  }

  lemma FreshEntry(m: Miner, db: Index, pool: Pool, s: Sched, known: set<Hash>, h: Hash)
    requires SchedOk(m, db, pool, s, known, {}, {}) && h !in known
    ensures h !in s.deps && forall p :: !Listed(s, p, h)
  {
  }

  lemma Registered(m: Miner, db: Index, pool: Pool, s: Sched, s': Sched, known: set<Hash>, h: Hash)
    requires pool.Keys >= known && SchedOk(m, db, pool, s, known, {}, {}) && h in pool && h !in known
    requires !Eligible(m, pool[h]) ==> s' == s
    requires Eligible(m, pool[h]) ==>
               && s'.deps == (if Waits(db, pool[h]) == {} then s.deps else s.deps[h := Waits(db, pool[h])])
               && (forall p, x :: Listed(s', p, x) <==> Listed(s, p, x) || (x == h && p in Waits(db, pool[h])))
               && s'.queue == s.queue + (if Waits(db, pool[h]) == {} && m.feeworkOk(pool[h]) then [h] else [])
    ensures SchedOk(m, db, pool, s', known + {h}, {}, {})
  {
  }

  /** Half-way through `Release`: the orphans in `done` no longer wait for `hash`. */
  ghost predicate Releasing(db: Index, pool: Pool, s: Sched, s': Sched, sel: set<Hash>, hash: Hash, done: set<Hash>)
    requires forall h :: h in s.deps ==> h in pool
  {
    && s'.dependers == s.dependers && s'.deps.Keys == s.deps.Keys && Distinct(s'.queue)
    && (forall h :: h in s.deps ==>
          s'.deps[h] == Waits(db, pool[h]) - (if h in done then sel + {hash} else sel))
    && (forall h :: h in s'.queue <==> h in s.queue || (h in done && h in s.deps && s.deps[h] != {} && s'.deps[h] == {}))
  }

  lemma QueueAppend(queue: seq<Hash>, h: Hash)
    requires Distinct(queue) && h !in queue
    ensures Distinct(queue + [h]) && forall x :: x in queue + [h] <==> x in queue || x == h
  {
  }

  lemma CutTwice(waits: set<Hash>, sel: set<Hash>, hash: Hash)
    ensures waits - (sel + {hash}) == waits - sel - {hash}
    ensures waits - sel == {} ==> waits - (sel + {hash}) == {}
    ensures waits - (sel + {hash}) - {hash} == waits - (sel + {hash})
  {
  }

  lemma ReleaseStep(m: Miner, db: Index, pool: Pool, s: Sched, was: Sched, sel: set<Hash>, seen: set<Hash>, hash: Hash,
                    done: set<Hash>, h: Hash)
    requires SchedOk(m, db, pool, s, pool.Keys, sel, seen) && h in s.deps && Releasing(db, pool, s, was, sel, hash, done)
    ensures
      var left := was.deps[h] - {hash};
      var s' := if was.deps[h] == {} then was
                else Sched(was.queue + (if left == {} then [h] else []), was.deps[h := left], was.dependers);
      Releasing(db, pool, s, s', sel, hash, done + {h})
  {
    assert s.deps[h] == Waits(db, pool[h]) - sel && (h in s.queue ==> s.deps[h] == {});
    hide SchedOk;
    ReleaseOne(db, pool, s, was, sel, hash, done, h);
  }

  lemma ReleaseOne(db: Index, pool: Pool, s: Sched, was: Sched, sel: set<Hash>, hash: Hash, done: set<Hash>, h: Hash)
    requires (forall x :: x in s.deps ==> x in pool) && h in s.deps && Releasing(db, pool, s, was, sel, hash, done)
    requires s.deps[h] == Waits(db, pool[h]) - sel && (h in s.queue ==> s.deps[h] == {})
    ensures
      var left := was.deps[h] - {hash};
      var s' := if was.deps[h] == {} then was
                else Sched(was.queue + (if left == {} then [h] else []), was.deps[h := left], was.dependers);
      Releasing(db, pool, s, s', sel, hash, done + {h})
  {
    hide Waits, Distinct;
    CutTwice(Waits(db, pool[h]), sel, hash);
    assert was.queue + [] == was.queue;
    if was.deps[h] != {} && was.deps[h] - {hash} == {} {
      QueueAppend(was.queue, h);
    }
  }

  lemma Released(m: Miner, db: Index, pool: Pool, s: Sched, s': Sched, sel: set<Hash>, seen: set<Hash>, hash: Hash,
                 done: set<Hash>)
    requires SchedOk(m, db, pool, s, pool.Keys, sel, seen) && Releasing(db, pool, s, s', sel, hash, done)
    requires hash in seen && forall h :: h in done <==> Listed(s, hash, h)
    ensures SchedOk(m, db, pool, s', pool.Keys, sel + {hash}, seen)
  {
    forall h | h in s'.deps ensures s'.deps[h] == Waits(db, pool[h]) - (sel + {hash}) {
      if h !in done {
        assert !Listed(s, hash, h);
        assert hash !in Waits(db, pool[h]);
      }
    }
    forall p, h ensures Listed(s', p, h) <==> h in s'.deps && p in Waits(db, pool[h]) {
      assert Listed(s', p, h) == Listed(s, p, h);
    }
  }

  lemma ReleaseStart(m: Miner, db: Index, pool: Pool, s: Sched, sel: set<Hash>, seen: set<Hash>, hash: Hash)
    requires SchedOk(m, db, pool, s, pool.Keys, sel, seen)
    ensures Releasing(db, pool, s, s, sel, hash, {})
  {
  }

  /** Release those who waited for `hash`; an orphan listed twice is queued once. */
  method Release(ghost m: Miner, ghost db: Index, ghost pool: Pool, s: Sched, ghost sel: set<Hash>, ghost seen: set<Hash>,
                 hash: Hash) returns (s': Sched)
    requires hash in seen && SchedOk(m, db, pool, s, pool.Keys, sel, seen)
    ensures SchedOk(m, db, pool, s', pool.Keys, sel + {hash}, seen)
  {
    s' := s;
    ghost var done: set<Hash> := {};
    ReleaseStart(m, db, pool, s, sel, seen, hash);
    hide Releasing, Waits;
    if hash in s.dependers {
      var list := s.dependers[hash];
      var i := 0;
      while i < |list|
        invariant 0 <= i <= |list| && done == set x | x in list[..i]
        invariant Releasing(db, pool, s, s', sel, hash, done)
      {
        var h := list[i];
        assert Listed(s, hash, h);
        assert list[..i + 1] == list[..i] + [h];
        ReleaseStep(m, db, pool, s, s', sel, seen, hash, done, h);
        if s'.deps[h] != {} {
          var left := s'.deps[h] - {hash};
          s' := Sched(s'.queue + (if left == {} then [h] else []), s'.deps[h := left], s'.dependers);
        }
        done := done + {h};
        i := i + 1;
      }
      assert list[..i] == list;
    }
    Released(m, db, pool, s, s', sel, seen, hash, done);
  }

  // ---------------------------------------------------------- filling the block

  /** The selected transactions connected one after the other, all marked as "in the pool". */
  function ConnectList(view: Index, txs: seq<Tx>): Option<Index> {
    if txs == [] then Some(view)
    else
      var v :- ConnectList(view, txs[..|txs| - 1]);
      ConnectTx(v, txs[|txs| - 1], IN_POOL)
  }

  function SigOpsOf(m: Miner, txs: seq<Tx>): nat {
    if txs == [] then 0 else SigOpsOf(m, txs[..|txs| - 1]) + txs[|txs| - 1].sigOps + m.p2shSigOps(txs[|txs| - 1])
  }

  /** The block under construction; `test` is `mapTestPool`. */
  datatype Draft = Draft(test: Index, txs: seq<Tx>, size: nat, sigOps: nat)

  ghost predicate DraftOk(m: Miner, db: Index, d: Draft) {
    && ConnectList(db, d.txs) == Some(db + d.test)
    && d.size == 1000 + SizeOf(d.txs) && d.sigOps == 100 + SigOpsOf(m, d.txs)
    && (d.txs != [] ==> d.size < m.maxSize && d.sigOps < MAX_BLOCK_SIGOPS)
  }

  /** Whether the turn of the selection loop takes the transaction, at the given index, size and count. */
  predicate Takes(m: Miner, src: Source, view: Index, size: nat, sigOps: nat, tx: Tx) {
    && size + tx.size < m.maxSize && sigOps + tx.sigOps + m.p2shSigOps(tx) < MAX_BLOCK_SIGOPS
    && m.worthy(tx, size)
    && Fetchable(view, src, tx.vin) && QposOk(m.rules, m.fork, tx)
    && ConnectInputsOk(m.rules, view, FetchedOf(view, src, tx.vin), tx, IN_POOL, BlockClaim(tx))
  }

  /** The same after a list of selected transactions. */
  ghost predicate TakenAfter(m: Miner, db: Index, src: Source, txs: seq<Tx>, tx: Tx) {
    && ConnectList(db, txs).Some?
    && Takes(m, src, ConnectList(db, txs).value, 1000 + SizeOf(txs), 100 + SigOpsOf(m, txs), tx)
  }

  method TryAdd(m: Miner, db: Index, src: Source, d: Draft, tx: Tx) returns (added: bool, d': Draft)
    requires DraftOk(m, db, d) && !tx.IsCoinBase()
    ensures added <==> Takes(m, src, db + d.test, d.size, d.sigOps, tx)
    ensures DraftOk(m, db, d')
    ensures d'.txs == if added then d.txs + [tx] else d.txs
    ensures !added ==> d' == d
  {
    hide ConnectInputsOk, SpendAll, Lookup, FetchSpec, Fetchable, FetchedOf, DraftOk, QposOk;
    d' := d;
    if d.size + tx.size >= m.maxSize || d.sigOps + tx.sigOps >= MAX_BLOCK_SIGOPS || !m.worthy(tx, d.size) {
      return false, d;
    }
    var fetch := FetchInputs(db, d.test, src, true, tx);
    FetchedAgrees(db + d.test, src, tx.vin, fetch);
    if !fetch.Fetched? || !QposOk(m.rules, m.fork, tx) {
      return false, d;
    }
    var sigOps := tx.sigOps + m.p2shSigOps(tx);
    if d.sigOps + sigOps >= MAX_BLOCK_SIGOPS {
      return false, d;
    }
    var ok, test := ConnectInputs(m.rules, fetch.inputs, d.test, tx, IN_POOL, BlockClaim(tx), db);
    if !ok {
      return false, d;
    }
    ConnectInputsSpends(m.rules, db + d.test, fetch.inputs, tx, IN_POOL, BlockClaim(tx));
    DraftGrows(m, db, d, tx, test);
    d' := Draft(test[tx.id := FreshRecord(IN_POOL, |tx.vout|)], d.txs + [tx], d.size + tx.size, d.sigOps + sigOps);
    return true, d';
  }

  lemma DraftGrows(m: Miner, db: Index, d: Draft, tx: Tx, test: Index)
    requires DraftOk(m, db, d) && !tx.IsCoinBase() && SpendAll(db + d.test, tx.vin, IN_POOL) == Some(db + test)
    requires d.size + tx.size < m.maxSize && d.sigOps + tx.sigOps + m.p2shSigOps(tx) < MAX_BLOCK_SIGOPS
    ensures DraftOk(m, db, Draft(test[tx.id := FreshRecord(IN_POOL, |tx.vout|)], d.txs + [tx], d.size + tx.size,
                                 d.sigOps + (tx.sigOps + m.p2shSigOps(tx))))
  {
    var record := FreshRecord(IN_POOL, |tx.vout|);
    assert db + test[tx.id := record] == (db + test)[tx.id := record];
    assert (d.txs + [tx])[..|d.txs|] == d.txs;
  }

  lemma ConnectInputsSpends(rules: Rules, view: Index, inputs: map<Hash, Prev>, tx: Tx, p: TxPos, claim: int)
    requires ConnectInputsOk(rules, view, inputs, tx, p, claim) && !tx.IsCoinBase()
    ensures SpendAll(view, tx.vin, p).Some?
  {
  }

  /** Nothing popped fails for want of a parent: the inputs of a queued transaction can all be fetched. */
  lemma ReadyIsFetchable(m: Miner, db: Index, src: Source, txs: seq<Tx>, tx: Tx)
    requires PoolSound(db, src) && tx.id in src.pool && src.pool[tx.id] == tx
    requires ConnectList(db, txs).Some? && FromPool(src, txs)
    requires Waits(db, tx) <= Ids(txs)
    ensures Fetchable(ConnectList(db, txs).value, src, tx.vin)
  {
    var view := ConnectList(db, txs).value;
    forall o | o in tx.vin
      ensures Lookup(view, src, true, o.hash).Some? && InRange(Lookup(view, src, true, o.hash).value, o.n)
    {
      assert InputExists(db, src, o);
      if o.hash in db {
        OldRecord(db, src, txs, o.hash);
      } else {
        assert o.hash in Waits(db, tx);
        NewRecord(db, src, txs, o.hash);
      }
    }
  }

  ghost predicate FromPool(src: Source, txs: seq<Tx>) {
    forall t :: t in txs ==> t.id in src.pool && src.pool[t.id] == t
  }

  /** Records that were on chain keep their place and size. */
  lemma {:induction false} OldRecord(db: Index, src: Source, txs: seq<Tx>, h: Hash)
    requires PoolSound(db, src) && ConnectList(db, txs).Some? && FromPool(src, txs) && h in db
    ensures
      var v := ConnectList(db, txs).value;
      h in v && v[h].pos == db[h].pos && |v[h].spent| == |db[h].spent|
  {
    if txs != [] {
      var front, tx := txs[..|txs| - 1], txs[|txs| - 1];
      OldRecord(db, src, front, h);
      var v := ConnectList(db, front).value;
      if !tx.IsCoinBase() {
        SpendAllKeys(v, tx.vin, IN_POOL);
        SpendAllAt(v, tx.vin, IN_POOL, h);
      }
    }
  }

  /** Records of selected transactions point into the pool and have one mark for each output. */
  lemma {:induction false} NewRecord(db: Index, src: Source, txs: seq<Tx>, h: Hash)
    requires PoolSound(db, src) && ConnectList(db, txs).Some? && FromPool(src, txs) && h in Ids(txs)
    ensures
      var v := ConnectList(db, txs).value;
      h in v && h in src.pool && v[h].pos == IN_POOL && |v[h].spent| == |src.pool[h].vout|
  {
    var front, tx := txs[..|txs| - 1], txs[|txs| - 1];
    assert txs == front + [tx];
    var v := ConnectList(db, front).value;
    if tx.id != h {
      NewRecord(db, src, front, h);
      if !tx.IsCoinBase() {
        SpendAllKeys(v, tx.vin, IN_POOL);
        SpendAllAt(v, tx.vin, IN_POOL, h);
      }
    }
  }

  predicate IdsDistinct(txs: seq<Tx>) {
    forall i, j :: 0 <= i < j < |txs| ==> txs[i].id != txs[j].id
  }

  lemma RemovedAt(q: seq<Hash>, i: nat)
    requires Distinct(q) && i < |q|
    ensures forall h :: h in q[..i] + q[i + 1..] <==> h in q && h != q[i]
  {
    var r := q[..i] + q[i + 1..];
    forall h | h in q && h != q[i] ensures h in r {
      var k :| 0 <= k < |q| && q[k] == h;
      assert r[if k < i then k else k - 1] == h;
    }
  }

  lemma Popped(m: Miner, db: Index, pool: Pool, s: Sched, sel: set<Hash>, seen: set<Hash>, i: nat)
    requires SchedOk(m, db, pool, s, pool.Keys, sel, seen) && i < |s.queue|
    ensures SchedOk(m, db, pool, s.(queue := s.queue[..i] + s.queue[i + 1..]), pool.Keys, sel, seen + {s.queue[i]})
  {
    var s' := s.(queue := s.queue[..i] + s.queue[i + 1..]);
    QueuedIsReady(m, db, pool, s, sel, seen, s.queue[i]);
    RemovedAt(s.queue, i);
    assert seen + {s.queue[i]} <= pool.Keys;
    assert QueueOk(m, db, pool, s', pool.Keys, seen + {s.queue[i]});
    forall p, h ensures Listed(s', p, h) <==> h in s'.deps && p in Waits(db, pool[h]) {
      assert Listed(s', p, h) == Listed(s, p, h);
    }
  }

  /**
   The selection loop. The queue may yield its entries in any order; every pooled transaction
   leaves it at most once, so the loop ends although releases make the queue grow.
   */
  method SelectTransactions(m: Miner, db: Index, src: Source, order: seq<Hash>)
    returns (d: Draft, ghost s: Sched, ghost seen: set<Hash>)
    requires PoolSound(db, src) && Distinct(order) && forall h :: h in order <==> h in src.pool
    ensures DraftOk(m, db, d) && Selection(m, src, d.txs)
    ensures s.queue == [] && SchedOk(m, db, src.pool, s, src.pool.Keys, Ids(d.txs), seen)
    ensures Justified(m, db, src, d.txs, seen)
  {
    hide SchedOk, PoolSound, DraftOk, Takes, TakenAfter, Waits, ConnectList, Fetchable;
    PoolIds(db, src);
    var work := Classify(m, db, src.pool, order);
    d := Draft(map[], [], 1000, 100);
    DraftEmpty(m, db);
    seen := {};
    assert Ids(d.txs) == {};
    hide Ids, Selection, Justified;
    SelectionEmpty(m, db, src);
    while work.queue != []
      invariant DraftOk(m, db, d) && Selection(m, src, d.txs)
      invariant SchedOk(m, db, src.pool, work, src.pool.Keys, Ids(d.txs), seen)
      invariant Justified(m, db, src, d.txs, seen)
      decreases src.pool.Keys - seen
    {
      var i: nat :| i < |work.queue|;
      var h := work.queue[i];
      QueuedIsReady(m, db, src.pool, work, Ids(d.txs), seen, h);
      NeverStuck(m, db, src, d, h);
      Popped(m, db, src.pool, work, Ids(d.txs), seen, i);
      work := work.(queue := work.queue[..i] + work.queue[i + 1..]);
      ghost var before := d.txs;
      ghost var was := seen;
      seen := seen + {h};
      DraftTakes(m, db, src, d, src.pool[h]);
      var added;
      added, d := TryAdd(m, db, src, d, src.pool[h]);
      Judged(m, db, src, before, was, h);
      if added {
        SelectionGrows(m, db, src, before, was, h);
        work := Release(m, db, src.pool, work, Ids(before), seen, h);
      }
    }
    s := work;
  }

  /** Refused when its turn came, after some of the transactions now selected. */
  ghost predicate PassedOver(m: Miner, db: Index, src: Source, txs: seq<Tx>, h: Hash) {
    h in src.pool && exists k :: 0 <= k <= |txs| && !TakenAfter(m, db, src, txs[..k], src.pool[h])
  }

  /** Each one selected was taken after those before it; whatever else left the queue was refused at its turn. */
  ghost predicate Justified(m: Miner, db: Index, src: Source, txs: seq<Tx>, seen: set<Hash>) {
    && (forall i :: 0 <= i < |txs| ==> TakenAfter(m, db, src, txs[..i], txs[i]))
    && (forall h :: h in seen && h !in Ids(txs) ==> PassedOver(m, db, src, txs, h))
  }

  /** One turn of the loop, whichever way it goes. */
  lemma Judged(m: Miner, db: Index, src: Source, txs: seq<Tx>, seen: set<Hash>, h: Hash)
    requires Justified(m, db, src, txs, seen) && h in src.pool && src.pool[h].id == h
    ensures Justified(m, db, src, if TakenAfter(m, db, src, txs, src.pool[h]) then txs + [src.pool[h]] else txs, seen + {h})
  {
    hide TakenAfter;
    var tx := src.pool[h];
    assert txs[..|txs|] == txs;
    if TakenAfter(m, db, src, txs, tx) {
      var all := txs + [tx];
      assert forall k :: 0 <= k <= |txs| ==> all[..k] == txs[..k];
      assert all[|txs|] == tx;
      forall x | x in seen + {h} && x !in Ids(all) ensures PassedOver(m, db, src, all, x) {
        assert tx in all && forall t :: t in txs ==> t in all;
        assert PassedOver(m, db, src, txs, x);
      }
    }
  }

  lemma DraftTakes(m: Miner, db: Index, src: Source, d: Draft, tx: Tx)
    requires DraftOk(m, db, d)
    ensures Takes(m, src, db + d.test, d.size, d.sigOps, tx) <==> TakenAfter(m, db, src, d.txs, tx)
  {
    hide ConnectList, Takes;
  }

  /**
   Why an eligible transaction of the pool is not in the selection: it failed the feework check, it waits for a
   parent that is not taken, or it was refused at its turn, after some of those selected.
   */
  lemma LeftOut(m: Miner, db: Index, src: Source, s: Sched, txs: seq<Tx>, seen: set<Hash>, h: Hash)
    requires SchedOk(m, db, src.pool, s, src.pool.Keys, Ids(txs), seen) && s.queue == []
    requires Justified(m, db, src, txs, seen) && h in src.pool && Eligible(m, src.pool[h]) && h !in Ids(txs)
    ensures
      || (Waits(db, src.pool[h]) == {} && !m.feeworkOk(src.pool[h]))
      || !(Waits(db, src.pool[h]) <= Ids(txs))
      || PassedOver(m, db, src, txs, h)
  {
    hide SchedOk, PassedOver, TakenAfter, Waits;
    if h !in seen {
      DrainedIsComplete(m, db, src.pool, s, Ids(txs), seen, h);
    }
  }

  /** The transactions taken: eligible entries of the pool, each once. */
  ghost predicate Selection(m: Miner, src: Source, txs: seq<Tx>) {
    FromPool(src, txs) && IdsDistinct(txs) && forall tx :: tx in txs ==> Eligible(m, tx)
  }

  lemma SelectionEmpty(m: Miner, db: Index, src: Source)
    ensures Selection(m, src, []) && Justified(m, db, src, [], {})
  {
  }

  lemma SelectionGrows(m: Miner, db: Index, src: Source, txs: seq<Tx>, seen: set<Hash>, h: Hash)
    requires PoolSound(db, src) && Selection(m, src, txs) && h in src.pool && Eligible(m, src.pool[h])
    requires Ids(txs) <= seen && h !in seen
    ensures Selection(m, src, txs + [src.pool[h]]) && Ids(txs + [src.pool[h]]) == Ids(txs) + {h}
  {
    var tx := src.pool[h];
    assert forall t :: t in txs ==> t.id in Ids(txs);
  }

  /** What leaves the queue can be fetched: connecting never fails for want of a pooled parent. */
  lemma NeverStuck(m: Miner, db: Index, src: Source, d: Draft, h: Hash)
    requires PoolSound(db, src) && DraftOk(m, db, d) && Selection(m, src, d.txs)
    requires h in src.pool && Waits(db, src.pool[h]) <= Ids(d.txs)
    ensures Fetchable(db + d.test, src, src.pool[h].vin)
  {
    ReadyIsFetchable(m, db, src, d.txs, src.pool[h]);
  }

  lemma DraftEmpty(m: Miner, db: Index)
    ensures DraftOk(m, db, Draft(map[], [], 1000, 100))
  {
    var none: Index := map[];
    assert db + none == db;
  }

  lemma PoolIds(db: Index, src: Source)
    requires PoolSound(db, src)
    ensures forall h :: h in src.pool ==> src.pool[h].id == h
  {
  }

  // ------------------------------------------------- what a selection satisfies

  lemma {:induction false} ListKeys(db: Index, txs: seq<Tx>)
    requires ConnectList(db, txs).Some?
    ensures ConnectList(db, txs).value.Keys == db.Keys + Ids(txs)
  {
    if txs != [] {
      var front, tx := txs[..|txs| - 1], txs[|txs| - 1];
      ListKeys(db, front);
      var v := ConnectList(db, front).value;
      if !tx.IsCoinBase() {
        SpendAllKeys(v, tx.vin, IN_POOL);
      }
      IdsStep(txs, |txs|);
      assert txs[..|txs|] == txs;
      assert ConnectTx(v, tx, IN_POOL).value.Keys == v.Keys + {tx.id};
    }
  }

  lemma {:induction false} ListPrefix(db: Index, txs: seq<Tx>, n: nat)
    requires ConnectList(db, txs).Some? && n <= |txs|
    ensures ConnectList(db, txs[..n]).Some?
    ensures n < |txs| ==> ConnectTx(ConnectList(db, txs[..n]).value, txs[n], IN_POOL).Some?
    decreases |txs|
  {
    if n == |txs| {
      assert txs[..n] == txs;
    } else {
      var front := txs[..|txs| - 1];
      ListPrefix(db, front, n);
      assert front[..n] == txs[..n];
    }
  }

  /** Every parent that is not on chain comes earlier in the list. */
  lemma ParentsFirst(db: Index, txs: seq<Tx>, j: nat, o: OutPoint)
    requires ConnectList(db, txs).Some? && j < |txs| && !txs[j].IsCoinBase() && o in txs[j].vin && o.hash !in db
    ensures exists i :: 0 <= i < j && txs[i].id == o.hash
  {
    ListPrefix(db, txs, j);
    ListKeys(db, txs[..j]);
    SpendAllKeys(ConnectList(db, txs[..j]).value, txs[j].vin, IN_POOL);
    var t :| t in txs[..j] && t.id == o.hash;
    var i :| 0 <= i < j && txs[..j][i] == t;
  }

  lemma IdIsNew(db: Index, src: Source, txs: seq<Tx>, n: nat)
    requires PoolSound(db, src) && FromPool(src, txs) && IdsDistinct(txs) && n < |txs| && ConnectList(db, txs[..n]).Some?
    ensures txs[n].id !in ConnectList(db, txs[..n]).value
  {
    ListKeys(db, txs[..n]);
  }

  /** An outpoint spent by a selected transaction stays spent. */
  lemma {:induction false} StaysSpent(db: Index, src: Source, txs: seq<Tx>, i: nat, n: nat, o: OutPoint)
    requires PoolSound(db, src) && FromPool(src, txs) && IdsDistinct(txs) && ConnectList(db, txs).Some?
    requires i < n <= |txs| && !txs[i].IsCoinBase() && o in txs[i].vin && ConnectList(db, txs[..n]).Some?
    ensures !Spendable(ConnectList(db, txs[..n]).value, o) && o.hash in ConnectList(db, txs[..n]).value
    decreases n
  {
    hide PoolSound, FromPool, IdsDistinct, SpendAll;
    var tx := txs[n - 1];
    ListPrefix(db, txs, n - 1);
    assert txs[..n][..n - 1] == txs[..n - 1];
    var v := ConnectList(db, txs[..n - 1]).value;
    IdIsNew(db, src, txs, n - 1);
    if i < n - 1 {
      StaysSpent(db, src, txs, i, n - 1, o);
    }
    if !tx.IsCoinBase() {
      SpendAllKeys(v, tx.vin, IN_POOL);
      SpendAllAt(v, tx.vin, IN_POOL, o.hash);
      assert OutPoint(o.hash, o.n) == o;
    }
  }

  /** No outpoint is spent by two selected transactions. */
  lemma NoDoubleSpend(db: Index, src: Source, txs: seq<Tx>, i: nat, j: nat, o: OutPoint)
    requires PoolSound(db, src) && FromPool(src, txs) && IdsDistinct(txs) && ConnectList(db, txs).Some?
    requires i < j < |txs| && !txs[i].IsCoinBase() && !txs[j].IsCoinBase() && o in txs[i].vin
    ensures o !in txs[j].vin
  {
    ListPrefix(db, txs, j);
    StaysSpent(db, src, txs, i, j, o);
    if o in txs[j].vin {
      SpendableInput(ConnectList(db, txs[..j]).value, txs[j].vin, IN_POOL, o);
    }
  }

  /** Same records, same sizes, same outputs still unspent; only the positions differ. */
  ghost predicate SameShape(v: Index, w: Index) {
    && v.Keys == w.Keys
    && (forall h :: h in v ==> |v[h].spent| == |w[h].spent|)
    && (forall h, k :: h in v && 0 <= k < |v[h].spent| ==> (v[h].spent[k].NullPos? <==> w[h].spent[k].NullPos?))
  }

  lemma {:induction false} SameShapeSpend(v: Index, w: Index, vin: seq<OutPoint>, p: TxPos, q: TxPos)
    requires SameShape(v, w) && p != NullPos && q != NullPos
    ensures SpendAll(v, vin, p).Some? <==> SpendAll(w, vin, q).Some?
    ensures SpendAll(v, vin, p).Some? ==> SameShape(SpendAll(v, vin, p).value, SpendAll(w, vin, q).value)
  {
    if vin != [] {
      SameShapeSpend(v, w, vin[..|vin| - 1], p, q);
    }
  }

  /** With the real disk positions of a block the same transactions connect, to an index of the same shape. */
  lemma {:induction false} BlockConnects(db: Index, b: Block, n: nat)
    requires n <= |b.vtx|
    ensures ConnectList(db, b.vtx[..n]).Some? <==> ConnectTxs(db, b, n).Some?
    ensures ConnectTxs(db, b, n).Some? ==> SameShape(ConnectList(db, b.vtx[..n]).value, ConnectTxs(db, b, n).value)
  {
    if n > 0 {
      assert b.vtx[..n][..n - 1] == b.vtx[..n - 1];
      BlockConnects(db, b, n - 1);
      if ConnectTxs(db, b, n - 1).Some? {
        var v, w := ConnectList(db, b.vtx[..n - 1]).value, ConnectTxs(db, b, n - 1).value;
        SameShapeSpend(v, w, b.vtx[n - 1].vin, IN_POOL, PosOf(b, n - 1));
      }
    }
  }

  // ------------------------------------- a coinbase or a coinstake in front of the selection

  /** The outpoints a list of transactions spends. */
  function Taken(txs: seq<Tx>): set<OutPoint> {
    if txs == [] then {}
    else
      var tx := txs[|txs| - 1];
      Taken(txs[..|txs| - 1]) + if tx.IsCoinBase() then {} else set o | o in tx.vin
  }

  /** `w` is `v` with records under the ids `extra` besides, and the outpoints `taken` spent. */
  ghost predicate Overlay(v: Index, w: Index, extra: set<Hash>, taken: set<OutPoint>) {
    && w.Keys == v.Keys + extra && v.Keys !! extra
    && (forall h :: h in v ==> |w[h].spent| == |v[h].spent|)
    && (forall h, k :: h in v && 0 <= k < |v[h].spent| ==>
          (w[h].spent[k].NullPos? <==> v[h].spent[k].NullPos? && OutPoint(h, k) !in taken))
  }

  lemma OverlayMark(v: Index, w: Index, extra: set<Hash>, taken: set<OutPoint>, o: OutPoint, p: TxPos)
    requires Overlay(v, w, extra, taken) && Spendable(v, o) && p != NullPos
    ensures Spendable(w, o) <==> o !in taken
    ensures o !in taken ==> Overlay(Mark(v, o, p), Mark(w, o, p), extra, taken)
  {
    assert OutPoint(o.hash, o.n) == o;
  }

  /** What can be spent below can be spent here exactly when none of it is taken. */
  lemma {:induction false} OverlaySpend(v: Index, w: Index, extra: set<Hash>, taken: set<OutPoint>, vin: seq<OutPoint>, p: TxPos)
    requires Overlay(v, w, extra, taken) && SpendAll(v, vin, p).Some? && p != NullPos
    ensures SpendAll(w, vin, p).Some? <==> forall o :: o in vin ==> o !in taken
    ensures SpendAll(w, vin, p).Some? ==> Overlay(SpendAll(v, vin, p).value, SpendAll(w, vin, p).value, extra, taken)
  {
    hide Overlay, Mark;
    if vin != [] {
      var front, o := vin[..|vin| - 1], vin[|vin| - 1];
      OverlaySpend(v, w, extra, taken, front, p);
      assert vin == front + [o];
      if SpendAll(w, front, p).Some? {
        OverlayMark(SpendAll(v, front, p).value, SpendAll(w, front, p).value, extra, taken, o, p);
      }
    }
  }

  lemma OverlayRecord(v: Index, w: Index, extra: set<Hash>, taken: set<OutPoint>, id: Hash, p: TxPos, n: nat)
    requires Overlay(v, w, extra, taken) && id !in extra && forall o :: o in taken ==> o.hash != id
    ensures Overlay(v[id := FreshRecord(p, n)], w[id := FreshRecord(p, n)], extra, taken)
  {
  }

  lemma {:induction false} OverlayList(v: Index, w: Index, extra: set<Hash>, taken: set<OutPoint>, txs: seq<Tx>)
    requires Overlay(v, w, extra, taken) && ConnectList(v, txs).Some? && Ids(txs) !! extra
    requires (forall t :: t in txs ==> !t.IsCoinBase()) && forall o :: o in taken ==> o.hash !in Ids(txs)
    ensures ConnectList(w, txs).Some? <==> Taken(txs) !! taken
    ensures ConnectList(w, txs).Some? ==> Overlay(ConnectList(v, txs).value, ConnectList(w, txs).value, extra, taken)
  {
    hide Overlay, SpendAll, FreshRecord;
    if txs != [] {
      var front, tx := txs[..|txs| - 1], txs[|txs| - 1];
      assert txs == front + [tx] && tx in txs;
      assert tx.id in Ids(txs);
      OverlayList(v, w, extra, taken, front);
      if ConnectList(w, front).Some? {
        var v', w' := ConnectList(v, front).value, ConnectList(w, front).value;
        OverlaySpend(v', w', extra, taken, tx.vin, IN_POOL);
        TakenApart(txs, taken);
        if SpendAll(w', tx.vin, IN_POOL).Some? {
          OverlayRecord(SpendAll(v', tx.vin, IN_POOL).value, SpendAll(w', tx.vin, IN_POOL).value, extra, taken, tx.id,
                        IN_POOL, |tx.vout|);
        }
      } else {
        assert Taken(front) <= Taken(txs);
      }
    }
  }

  lemma TakenApart(txs: seq<Tx>, taken: set<OutPoint>)
    requires txs != [] && !txs[|txs| - 1].IsCoinBase()
    ensures
      var front, tx := txs[..|txs| - 1], txs[|txs| - 1];
      Taken(txs) !! taken <==> Taken(front) !! taken && forall o :: o in tx.vin ==> o !in taken
  {
  }

  /** Connecting transactions with new ids in front is such an overlay. */
  lemma {:induction false} PrefixOverlay(db: Index, prefix: seq<Tx>)
    requires ConnectList(db, prefix).Some? && db.Keys !! Ids(prefix)
    ensures Overlay(db, ConnectList(db, prefix).value, Ids(prefix), Taken(prefix))
  {
    if prefix != [] {
      var front, tx := prefix[..|prefix| - 1], prefix[|prefix| - 1];
      assert prefix == front + [tx] && tx in prefix && tx.id in Ids(prefix);
      IdsStep(prefix, |prefix|);
      assert prefix[..|prefix|] == prefix;
      PrefixOverlay(db, front);
      OneMore(db, ConnectList(db, front).value, Ids(front), Taken(front), tx);
    }
  }

  lemma OneMore(db: Index, w: Index, extra: set<Hash>, taken: set<OutPoint>, tx: Tx)
    requires Overlay(db, w, extra, taken) && ConnectTx(w, tx, IN_POOL).Some? && tx.id !in db
    ensures Overlay(db, ConnectTx(w, tx, IN_POOL).value, extra + {tx.id},
                    taken + if tx.IsCoinBase() then {} else set o | o in tx.vin)
  {
    var w' := ConnectTx(w, tx, IN_POOL).value;
    if !tx.IsCoinBase() {
      SpendAllKeys(w, tx.vin, IN_POOL);
      forall h | h in db
        ensures |w'[h].spent| == |w[h].spent|
        ensures forall k :: 0 <= k < |w[h].spent| ==>
                  (w'[h].spent[k].NullPos? <==> w[h].spent[k].NullPos? && OutPoint(h, k) !in tx.vin)
      {
        SpendAllAt(w, tx.vin, IN_POOL, h);
      }
    }
  }

  lemma {:induction false} ListSplit(db: Index, a: seq<Tx>, c: seq<Tx>)
    ensures ConnectList(db, a + c) ==
              if ConnectList(db, a).None? then None else ConnectList(ConnectList(db, a).value, c)
    decreases |c|
  {
    if c == [] {
      assert a + c == a;
    } else {
      ListSplit(db, a, c[..|c| - 1]);
      assert (a + c)[..|a + c| - 1] == a + c[..|c| - 1];
    }
  }

  // --------------------------------------------------------- the block on the chain

  /** Where the records point while a block is connected, and how many outputs they have. */
  lemma {:induction false} RecordAfter(db: Index, b: Block, n: nat, h: Hash)
    requires n <= |b.vtx| && ConnectTxs(db, b, n).Some? && h in ConnectTxs(db, b, n).value
    ensures
      var r := ConnectTxs(db, b, n).value[h];
      || (exists k :: 0 <= k < n && b.vtx[k].id == h && r.pos == PosOf(b, k) && |r.spent| == |b.vtx[k].vout|)
      || (h in db && r.pos == db[h].pos && |r.spent| == |db[h].spent| && forall k :: 0 <= k < n ==> b.vtx[k].id != h)
  {
    hide PosOf, SpendAll;
    if n > 0 {
      var v, tx, p := ConnectTxs(db, b, n - 1).value, b.vtx[n - 1], PosOf(b, n - 1);
      if tx.id != h {
        if !tx.IsCoinBase() {
          SpendAllKeys(v, tx.vin, p);
          SpendAllAt(v, tx.vin, p, h) by {
            RealPos(b, n - 1);
          }
        }
        RecordAfter(db, b, n - 1, h);
      }
    }
  }

  /** The block can be read back from disk once it has been written there. */
  ghost predicate Written(src: Source, src': Source, b: Block) {
    && (forall p :: p in src.disk ==> p in src'.disk && src'.disk[p] == src.disk[p])
    && (forall i :: 0 <= i < |b.vtx| ==>
          PosOf(b, i) != IN_POOL && PosOf(b, i) in src'.disk && src'.disk[PosOf(b, i)] == b.vtx[i])
  }

  /** Inputs on chain lead to their transaction. */
  predicate InputsKnown(db: Index, src: Source, tx: Tx) {
    forall o :: o in tx.vin && o.hash in db ==> InputExists(db, src, o)
  }

  /** What can be spent while the block is connected can be fetched. */
  lemma SpentIsFetchable(db: Index, src: Source, src': Source, b: Block, i: nat)
    requires i < |b.vtx| && Written(src, src', b) && InputsKnown(db, src, b.vtx[i])
    requires (forall h :: h in db ==> db[h].pos != IN_POOL) && ConnectTxs(db, b, i).Some?
    requires SpendAll(ConnectTxs(db, b, i).value, b.vtx[i].vin, PosOf(b, i)).Some?
    ensures Fetchable(ConnectTxs(db, b, i).value, src', b.vtx[i].vin)
  {
    hide ConnectTxs, SpendAll, PosOf;
    RealPos(b, i);
    var w, vin := ConnectTxs(db, b, i).value, b.vtx[i].vin;
    forall o | o in vin
      ensures Lookup(w, src', true, o.hash).Some? && InRange(Lookup(w, src', true, o.hash).value, o.n)
    {
      SpendableInput(w, vin, PosOf(b, i), o);
      RecordAfter(db, b, i, o.hash);
      if k :| 0 <= k < i && b.vtx[k].id == o.hash && w[o.hash].pos == PosOf(b, k) && |w[o.hash].spent| == |b.vtx[k].vout| {
        assert src'.disk[PosOf(b, k)] == b.vtx[k];
      } else {
        assert InputExists(db, src, o);
      }
    }
  }

  /**
   A block as the miner leaves it: `m` transactions in front, a coinbase and perhaps a coinstake or none for
   qPoS, then the selection, which was made as if the front were not there.
   */
  ghost predicate Assembled(db: Index, src: Source, b: Block, m: nat) {
    && m <= |b.vtx| && IdsDistinct(b.vtx)
    && FromPool(src, b.vtx[m..]) && ConnectList(db, b.vtx[m..]).Some?
    && (forall t :: t in b.vtx[m..] ==> !t.IsCoinBase())
    && ConnectList(db, b.vtx[..m]).Some?
    && (forall t :: t in b.vtx[..m] ==> t.id !in db && t.id !in src.pool && (!t.IsCoinBase() ==> InputsKnown(db, src, t)))
    && (forall o :: o in Taken(b.vtx[..m]) ==> o.hash !in src.pool)
  }

  /** The block connects exactly when nothing in front spends what the selection spends. */
  lemma FrontMustNotCompete(db: Index, src: Source, b: Block, m: nat)
    requires PoolSound(db, src) && Assembled(db, src, b, m)
    ensures ConnectTxs(db, b, |b.vtx|).Some? <==> Taken(b.vtx[m..]) !! Taken(b.vtx[..m])
  {
    hide ConnectList, ConnectTxs, Taken, Overlay;
    var front, txs := b.vtx[..m], b.vtx[m..];
    assert front + txs == b.vtx && b.vtx[..|b.vtx|] == b.vtx;
    BlockConnects(db, b, |b.vtx|);
    ListSplit(db, front, txs);
    PrefixOverlay(db, front);
    OverlayList(db, ConnectList(db, front).value, Ids(front), Taken(front), txs);
  }

  /** Then every transaction of it passes the fetch-and-spend stage of `ConnectBlock`. */
  lemma AssembledBlockConnects(db: Index, src: Source, src': Source, b: Block, m: nat, i: nat)
    requires PoolSound(db, src) && Assembled(db, src, b, m) && Written(src, src', b)
    requires Taken(b.vtx[m..]) !! Taken(b.vtx[..m]) && i < |b.vtx|
    ensures ConnectTxs(db, b, |b.vtx|).Some? && ConnectTxs(db, b, i).Some?
    ensures !b.vtx[i].IsCoinBase() ==>
              && Fetchable(ConnectTxs(db, b, i).value, src', b.vtx[i].vin)
              && SpendAll(ConnectTxs(db, b, i).value, b.vtx[i].vin, PosOf(b, i)).Some?
  {
    FrontMustNotCompete(db, src, b, m);
    hide ConnectList, Taken, SpendAll, PosOf;
    ConnectsUpTo(db, b, i, |b.vtx|);
    if !b.vtx[i].IsCoinBase() {
      if i < m {
        assert b.vtx[i] == b.vtx[..m][i];
      } else {
        assert b.vtx[i] == b.vtx[m..][i - m];
        assert b.vtx[i] in b.vtx[m..];
      }
      assert InputsKnown(db, src, b.vtx[i]);
      SpentIsFetchable(db, src, src', b, i);
    }
  }

  lemma {:induction false} ConnectsUpTo(db: Index, b: Block, i: nat, n: nat)
    requires i < n <= |b.vtx| && ConnectTxs(db, b, n).Some?
    ensures ConnectTxs(db, b, i).Some? && ConnectTx(ConnectTxs(db, b, i).value, b.vtx[i], PosOf(b, i)).Some?
  {
    if i < n - 1 {
      ConnectsUpTo(db, b, i, n - 1);
    }
  }

  /** Without a coinstake nothing competes: a qPoS block, or one with a coinbase alone in front, connects. */
  lemma NoStakeConnects(db: Index, src: Source, b: Block, m: nat)
    requires PoolSound(db, src) && Assembled(db, src, b, m) && forall t :: t in b.vtx[..m] ==> t.IsCoinBase()
    ensures ConnectTxs(db, b, |b.vtx|).Some?
  {
    hide ConnectList, ConnectTxs;
    TakesNothing(b.vtx[..m]);
    FrontMustNotCompete(db, src, b, m);
  }

  lemma {:induction false} TakesNothing(txs: seq<Tx>)
    requires forall t :: t in txs ==> t.IsCoinBase()
    ensures Taken(txs) == {}
  {
    if txs != [] {
      TakesNothing(txs[..|txs| - 1]);
    }
  }

  /** With a coinbase and a coinstake in front, it connects exactly when no selected transaction spends the stake. */
  lemma StakeConnectsIff(db: Index, src: Source, b: Block)
    requires PoolSound(db, src) && Assembled(db, src, b, 2) && b.vtx[0].IsCoinBase() && !b.vtx[1].IsCoinBase()
    ensures ConnectTxs(db, b, |b.vtx|).Some? <==> forall o :: o in b.vtx[1].vin ==> o !in Taken(b.vtx[2..])
  {
    hide ConnectList, ConnectTxs;
    FrontMustNotCompete(db, src, b, 2);
    assert b.vtx[..2][..1] == [b.vtx[0]];
    TakesNothing([b.vtx[0]]);
    TakenApart(b.vtx[..2], Taken(b.vtx[2..]));
  }

  const STAKE_DB: Index := map[1 := TxIndex(Pos(0, 0, 0), [NullPos])]
  const MINED := Tx(2, [OutPoint(0, 0xffff_ffff)], [TxOut(0, true, None)], 0, 100, 0)
  const STAKE := Tx(3, [OutPoint(1, 0)], [TxOut(0, true, None), TxOut(9, false, None)], 0, 100, 0)
  const RIVAL := Tx(4, [OutPoint(1, 0)], [TxOut(7, false, None)], 0, 100, 0)
  const STAKE_SOURCE := Source(map[Pos(0, 0, 0) := Tx(1, [], [TxOut(8, false, None)], 0, 100, 0)], map[4 := RIVAL])

  lemma SpendsCoin(v: Index, tx: Tx)
    requires tx.vin == [OutPoint(1, 0)] && Spendable(v, OutPoint(1, 0)) && !tx.IsCoinBase()
    ensures ConnectTx(v, tx, IN_POOL).Some?
  {
    assert tx.vin[..0] == [];
    assert SpendAll(v, tx.vin[..0], IN_POOL) == Some(v);
  }

  lemma StakeSpends()
    ensures Taken([MINED, STAKE]) == {OutPoint(1, 0)} && OutPoint(1, 0) in Taken([RIVAL])
  {
    var front := [MINED, STAKE];
    assert front[..1] == [MINED] && STAKE.vin[0] in STAKE.vin && RIVAL.vin[0] in RIVAL.vin;
    TakesNothing([MINED]);
    assert Taken(front) == Taken([MINED]) + set o | o in STAKE.vin;
  }

  lemma RivalSelected()
    ensures ConnectList(STAKE_DB, [RIVAL]).Some?
  {
    hide ConnectTx;
    assert [RIVAL][..0] == [];
    assert ConnectList(STAKE_DB, []) == Some(STAKE_DB);
    SpendsCoin(STAKE_DB, RIVAL);
  }

  /** A miner that asks for nothing beyond the limits. */
  function Easy(): Miner {
    Miner(Lenient(8), _ => true, _ => true, (_, _) => true, _ => 0, 250_000, 8)
  }

  lemma StakePool()
    ensures PoolSound(STAKE_DB, STAKE_SOURCE) && Waits(STAKE_DB, RIVAL) == {} && STAKE_SOURCE.pool.Keys == {4}
    ensures Distinct([4]) && forall h :: h in [4] <==> h in STAKE_SOURCE.pool
  {
  }

  lemma RivalTaken()
    ensures TakenAfter(Easy(), STAKE_DB, STAKE_SOURCE, [], RIVAL)
  {
    hide ConnectInputsOk;
    assert ConnectList(STAKE_DB, []) == Some(STAKE_DB);
    RivalConnects(FetchedOf(STAKE_DB, STAKE_SOURCE, RIVAL.vin));
  }

  lemma RivalConnects(inputs: map<Hash, Prev>)
    requires inputs == FetchedOf(STAKE_DB, STAKE_SOURCE, RIVAL.vin)
    ensures ConnectInputsOk(Lenient(8), STAKE_DB, inputs, RIVAL, IN_POOL, BlockClaim(RIVAL))
  {
    SpendsCoin(STAKE_DB, RIVAL);
  }

  lemma NotPassedOver()
    ensures !PassedOver(Easy(), STAKE_DB, STAKE_SOURCE, [], 4)
  {
    hide TakenAfter;
    RivalTaken();
    var none: seq<Tx> := [];
    assert forall k :: 0 <= k <= |none| ==> none[..k] == [];
  }

  lemma OneEntry(src: Source, txs: seq<Tx>, h: Hash)
    requires FromPool(src, txs) && IdsDistinct(txs) && src.pool.Keys == {h}
    ensures txs == [] || txs == [src.pool[h]]
  {
    assert |txs| > 1 ==> txs[0].id != txs[1].id;
    assert forall i :: 0 <= i < |txs| ==> txs[i] in txs && txs[i].id in src.pool.Keys;
  }

  /** Whatever the loop may answer on this pool, it answers the rival. */
  lemma OnlyRival(s: Sched, txs: seq<Tx>, seen: set<Hash>)
    requires Selection(Easy(), STAKE_SOURCE, txs) && s.queue == []
    requires SchedOk(Easy(), STAKE_DB, STAKE_SOURCE.pool, s, {4}, Ids(txs), seen)
    requires Justified(Easy(), STAKE_DB, STAKE_SOURCE, txs, seen)
    ensures txs == [RIVAL]
  {
    hide SchedOk, TakenAfter, PassedOver, Waits;
    StakePool();
    NotPassedOver();
    OneEntry(STAKE_SOURCE, txs, 4);
    if 4 !in Ids(txs) {
      LeftOut(Easy(), STAKE_DB, STAKE_SOURCE, s, txs, seen, 4);
    }
  }

  lemma RivalBlock(b: Block)
    requires b.vtx == [MINED, STAKE, RIVAL]
    ensures Assembled(STAKE_DB, STAKE_SOURCE, b, 2) && ConnectTxs(STAKE_DB, b, 3).None?
  {
    hide ConnectList, ConnectTxs, Taken;
    assert b.vtx[..2] == [MINED, STAKE] && b.vtx[2..] == [RIVAL];
    StakePool();
    StakeFront();
    RivalSelected();
    StakeSpends();
    FrontMustNotCompete(STAKE_DB, STAKE_SOURCE, b, 2);
  }

  /** A pooled transaction that spends the stake is selected all the same, and the block does not connect. */
  method SelectedAgainstStake() returns (b: Block)
    ensures PoolSound(STAKE_DB, STAKE_SOURCE) && Assembled(STAKE_DB, STAKE_SOURCE, b, 2)
    ensures b.vtx == [MINED, STAKE, RIVAL] && ConnectTxs(STAKE_DB, b, 3).None?
  {
    hide *;
    StakePool();
    ghost var s, seen;
    var d;
    d, s, seen := SelectTransactions(Easy(), STAKE_DB, STAKE_SOURCE, [4]);
    OnlyRival(s, d.txs, seen);
    b := Block(9, 8, 0, 200, 80, [MINED, STAKE] + d.txs, 1, false);
    RivalBlock(b);
  }

  lemma StakeFront()
    ensures ConnectList(STAKE_DB, [MINED, STAKE]).Some?
  {
    var db := STAKE_DB;
    assert [MINED, STAKE][..1] == [MINED] && [MINED][..0] == [];
    assert ConnectList(db, []) == Some(db);
    var v := db[2 := FreshRecord(IN_POOL, 1)];
    assert ConnectList(db, [MINED]) == Some(v);
    SpendsCoin(v, STAKE);
  }
}
