/** The stake modifier: 64 rounds of selection without replacement among recent blocks. */
module StakeModifier {
  import opened Basics

  /** What the index stores of a block for this purpose. */
  datatype Header = Header(time: nat, stake: bool, proof: Hash, entropy: bool, modifier: nat, generated: bool)

  datatype Candidate = Candidate(time: int, hash: Hash)

  /** Modifier interval in seconds, and ratio of the longest to the shortest section. */
  datatype Params = Params(interval: nat, ratio: nat)

  datatype World = World(headers: map<Hash, Header>, digest: (Hash, nat) -> int)

  const ROUNDS := 64

  predicate Valid(p: Params) {
    p.interval > 0 && p.ratio > 0
  }

  // ----------------------------------------------------------- interval sections

  function Times(a: nat, b: nat): nat {
    a * b
  }

  function Divisor(p: Params, n: nat): (d: nat)
    requires Valid(p) && n < ROUNDS
    ensures d > 0
  {
    63 + Times(63 - n, p.ratio - 1)
  }

  /** `GetStakeModifierSelectionIntervalSection`. */
  function Section(p: Params, n: nat): int
    requires Valid(p) && n < ROUNDS
  {
    p.interval * 63 / Divisor(p, n)
  }

  function Sections(p: Params, n: nat): int
    requires Valid(p) && n <= ROUNDS
  {
    if n == 0 then 0 else Sections(p, n - 1) + Section(p, n - 1)
  }

  /** `GetStakeModifierSelectionInterval`. */
  method SelectionInterval(p: Params) returns (total: int)
    requires Valid(p)
    ensures total == Sections(p, ROUNDS)
  {
    total := 0;
    for n := 0 to ROUNDS
      invariant total == Sections(p, n)
    {
      total := total + Section(p, n);
    }
  }

  lemma TimesMonotone(q: nat, b: nat, c: nat)
    requires b <= c
    ensures Times(q, b) <= Times(q, c) && Times(b, q) <= Times(c, q)
  {
  }

  lemma TimesAdds(a: nat, b: nat, c: nat)
    ensures Times(a + b, c) == Times(a, c) + Times(b, c)
  {
  }

  /** A quotient is known by the multiples around the dividend. */
  lemma Quotient(a: nat, m: nat, q: nat)
    requires m > 0
    ensures a / m == q <==> Times(q, m) <= a < Times(q, m) + m
  {
    var r := a / m;
    assert Times(r, m) + a % m == a;
    if Times(q, m) <= a < Times(q, m) + m {
      if q < r {
        TimesMonotone(m, q + 1, r);
        TimesAdds(q, 1, m);
        assert false;
      }
      if r < q {
        TimesMonotone(m, r + 1, q);
        TimesAdds(r, 1, m);
        assert false;
      }
    }
  }

  lemma DivideSmaller(a: nat, b: nat, c: nat)
    requires 0 < b <= c
    ensures a / c <= a / b
  {
    hide Times;
    var q, r := a / c, a / b;
    Quotient(a, c, q);
    Quotient(a, b, r);
    TimesMonotone(q, b, c);
    if r < q {
      TimesMonotone(b, r + 1, q);
      TimesAdds(r, 1, b);
      assert Times(1, b) == b by {
        TimesOne(b);
      }
      assert false;
    }
  }

  lemma TimesOne(b: nat)
    ensures Times(1, b) == b
  {
  }

  lemma CancelFactor(a: nat, b: nat)
    requires b > 0
    ensures a * 63 / (63 * b) == a / b
  {
    var q := a / b;
    Quotient(a, b, q);
    assert Times(q, 63 * b) == 63 * Times(q, b);
    Quotient(a * 63, 63 * b, q);
  }

  /** Sections grow from the interval divided by the ratio to the whole interval. */
  lemma SectionsGrow(p: Params, n: nat)
    requires Valid(p) && n < ROUNDS
    ensures Section(p, 0) == p.interval / p.ratio <= Section(p, n) <= Section(p, 63) == p.interval
    ensures n > 0 ==> Section(p, n - 1) <= Section(p, n)
  {
    hide Times;
    var d := p.ratio - 1;
    SectionEnds(p);
    TimesMonotone(d, 63 - n, 63);
    TimesMonotone(d, 0, 63 - n);
    DivideSmaller(p.interval * 63, Divisor(p, n), Divisor(p, 0));
    DivideSmaller(p.interval * 63, Divisor(p, 63), Divisor(p, n));
    if n > 0 {
      TimesMonotone(d, 63 - n, 64 - n);
      DivideSmaller(p.interval * 63, Divisor(p, n), Divisor(p, n - 1));
    }
  }

  lemma SectionEnds(p: Params)
    requires Valid(p)
    ensures Section(p, 0) == p.interval / p.ratio && Section(p, 63) == p.interval
  {
    assert Divisor(p, 0) == 63 * p.ratio;
    CancelFactor(p.interval, p.ratio);
    assert Divisor(p, 63) == 63;
  }

  /**
   Section `n` is the interval divided by the mean of the ratio and 1 at weights 63 - n and n, rounded down: the largest
   number whose product with the weighted sum is at most 63 intervals.
   */
  lemma SectionIs(p: Params, n: nat)
    requires Valid(p) && n < ROUNDS
    ensures
      var sum := Times(63 - n, p.ratio) + n;
      Section(p, n) >= 0 && Times(Section(p, n), sum) <= 63 * p.interval < Times(Section(p, n) + 1, sum)
  {
    hide Times;
    TimesAdds(1, p.ratio - 1, 63 - n);
    TimesFlips(63 - n, p.ratio);
    TimesFlips(63 - n, p.ratio - 1);
    TimesOne(63 - n);
    assert Divisor(p, n) == Times(63 - n, p.ratio) + n;
    var q := Section(p, n);
    Quotient(p.interval * 63, Divisor(p, n), q);
    TimesAdds(q, 1, Divisor(p, n));
    TimesOne(Divisor(p, n));
  }

  lemma TimesFlips(a: nat, b: nat)
    ensures Times(a, b) == Times(b, a)
  {
  }

  function Total(s: seq<int>): int {
    if s == [] then 0 else Total(s[..|s| - 1]) + s[|s| - 1]
  }

  function Lengths(p: Params, n: nat): seq<int>
    requires Valid(p) && n <= ROUNDS
  {
    seq(n, i requires 0 <= i < n => Section(p, i))
  }

  /** The stop time of a round lies the first sections after the start: all of them up to its own. */
  lemma {:induction false} SectionsAre(p: Params, n: nat)
    requires Valid(p) && n <= ROUNDS
    ensures Sections(p, n) == Total(Lengths(p, n))
  {
    hide Section;
    if n > 0 {
      SectionsAre(p, n - 1);
      var s := Lengths(p, n);
      assert s[..n - 1] == Lengths(p, n - 1);
    }
  }

  // ----------------------------------------------------------- sorted candidates

  predicate Before(a: Candidate, b: Candidate) {
    a.time < b.time || (a.time == b.time && a.hash < b.hash)
  }

  predicate InOrder(c: seq<Candidate>) {
    forall i, j :: 0 <= i < j < |c| ==> Before(c[i], c[j])
  }

  function Insert(x: Candidate, c: seq<Candidate>): seq<Candidate> {
    if c == [] || Before(x, c[0]) then [x] + c else [c[0]] + Insert(x, c[1..])
  }

  lemma {:induction false} InsertOrders(x: Candidate, c: seq<Candidate>)
    requires InOrder(c) && forall i :: 0 <= i < |c| ==> c[i].hash != x.hash
    ensures InOrder(Insert(x, c))
    ensures forall y :: y in Insert(x, c) <==> y == x || y in c
    ensures |Insert(x, c)| == |c| + 1
  {
    if c != [] {
      if Before(x, c[0]) {
        assert InOrder([x] + c);
      } else {
        InsertOrders(x, c[1..]);
        var rest := Insert(x, c[1..]);
        forall j | 0 <= j < |rest| ensures Before(c[0], rest[j]) {
          assert rest[j] in rest;
          if rest[j] != x {
            var k :| 0 <= k < |c[1..]| && c[1..][k] == rest[j];
            assert c[k + 1] == rest[j];
          }
        }
      }
    }
  }

  /** `sort` on pairs of time and hash. */
  method Sort(c: seq<Candidate>) returns (r: seq<Candidate>)
    requires forall i, j :: 0 <= i < j < |c| ==> c[i].hash != c[j].hash
    ensures InOrder(r) && |r| == |c| && forall y :: y in r <==> y in c
    ensures forall i, j :: 0 <= i < j < |r| ==> r[i].time < r[j].time || (r[i].time == r[j].time && r[i].hash < r[j].hash)
  {
    r := [];
    for i := 0 to |c|
      invariant InOrder(r) && |r| == i && forall y :: y in r <==> y in c[..i]
    {
      forall k | 0 <= k < |r| ensures r[k].hash != c[i].hash {
        assert r[k] in c[..i];
      }
      InsertOrders(c[i], r);
      assert c[..i + 1] == c[..i] + [c[i]];
      r := Insert(c[i], r);
    }
    assert c[..|c|] == c;
  }

  // ------------------------------------------------------------------ one round

  /** The selection hash: the proof and the last modifier, far smaller for proof-of-stake blocks. */
  function Weight(w: World, modifier: nat, h: Hash): int
    requires h in w.headers
  {
    var header := w.headers[h];
    if header.stake then w.digest(header.proof, modifier) / STAKE_FACTOR else w.digest(h, modifier)
  }

  predicate Known(w: World, c: seq<Candidate>) {
    forall i :: 0 <= i < |c| ==> c[i].hash in w.headers && w.headers[c[i].hash].time == c[i].time
  }

  predicate Open(c: seq<Candidate>, chosen: set<Hash>, i: int) {
    0 <= i < |c| && c[i].hash !in chosen
  }

  /**
   * Candidate `i` is the one to pick: of the open ones in time, the first with the least selection hash;
   * with none in time, the earliest open one.
   */
  ghost predicate IsPick(w: World, c: seq<Candidate>, chosen: set<Hash>, stop: int, modifier: nat, i: int)
    requires Known(w, c)
  {
    && Open(c, chosen, i)
    && (c[i].time > stop ==> forall j :: Open(c, chosen, j) ==> i <= j)
    && (c[i].time <= stop ==> forall j :: Open(c, chosen, j) && c[j].time <= stop ==>
          Weight(w, modifier, c[i].hash) < Weight(w, modifier, c[j].hash)
          || (Weight(w, modifier, c[i].hash) == Weight(w, modifier, c[j].hash) && i <= j))
  }

  /** No two candidates can both be the one to pick. */
  lemma PickUnique(w: World, c: seq<Candidate>, chosen: set<Hash>, stop: int, modifier: nat, i: int, j: int)
    requires Known(w, c) && InOrder(c)
    requires IsPick(w, c, chosen, stop, modifier, i) && IsPick(w, c, chosen, stop, modifier, j)
    ensures i == j
  {
    assert Open(c, chosen, i) && Open(c, chosen, j);
  }

  // ----------------------------------------------- proof-of-stake against proof-of-work

  const STAKE_FACTOR := 0x1_0000_0000

  predicate InTime(c: seq<Candidate>, chosen: set<Hash>, stop: int, i: int) {
    Open(c, chosen, i) && c[i].time <= stop
  }

  predicate IsStake(w: World, c: seq<Candidate>, i: int)
    requires Known(w, c) && 0 <= i < |c|
  {
    w.headers[c[i].hash].stake
  }

  /** The full digest of a candidate, before any favour. */
  function Digest(w: World, c: seq<Candidate>, modifier: nat, i: int): int
    requires Known(w, c) && 0 <= i < |c|
  {
    w.digest(if IsStake(w, c, i) then w.headers[c[i].hash].proof else c[i].hash, modifier)
  }

  /** Digests are unsigned. */
  ghost predicate Unsigned(w: World, modifier: nat) {
    forall h :: w.digest(h, modifier) >= 0
  }

  /** A proof-of-stake candidate `s` comes before a proof-of-work candidate `p`, told from the two digests. */
  predicate Outranks(w: World, c: seq<Candidate>, modifier: nat, s: int, p: int)
    requires Known(w, c) && 0 <= s < |c| && 0 <= p < |c| && Unsigned(w, modifier)
  {
    var d, e := Digest(w, c, modifier, s), Digest(w, c, modifier, p);
    d < Times(e, STAKE_FACTOR) || (d < Times(e + 1, STAKE_FACTOR) && s < p)
  }

  lemma FactorDivides(d: nat, e: nat)
    ensures d / STAKE_FACTOR < e <==> d < Times(e, STAKE_FACTOR)
    ensures d / STAKE_FACTOR <= e <==> d < Times(e + 1, STAKE_FACTOR)
  {
    hide Times;
    var q := d / STAKE_FACTOR;
    Quotient(d, STAKE_FACTOR, q);
    TimesAdds(q, 1, STAKE_FACTOR);
    TimesAdds(e, 1, STAKE_FACTOR);
    TimesOne(STAKE_FACTOR);
    if q < e {
      TimesMonotone(STAKE_FACTOR, q + 1, e);
    } else {
      TimesMonotone(STAKE_FACTOR, e, q);
    }
    if q > e {
      TimesMonotone(STAKE_FACTOR, e + 1, q);
    } else {
      TimesMonotone(STAKE_FACTOR, q + 1, e + 1);
    }
  }

  /**
   A round with a proof-of-stake candidate in time picks a proof-of-stake block exactly when one of them outranks every
   proof-of-work candidate in time.
   */
  lemma StakeWinsIff(w: World, c: seq<Candidate>, chosen: set<Hash>, stop: int, modifier: nat, i: int, j: int)
    requires Known(w, c) && InOrder(c) && Unsigned(w, modifier) && IsPick(w, c, chosen, stop, modifier, i)
    requires InTime(c, chosen, stop, j) && IsStake(w, c, j)
    ensures IsStake(w, c, i) <==>
              exists s :: InTime(c, chosen, stop, s) && IsStake(w, c, s)
                && forall p :: InTime(c, chosen, stop, p) && !IsStake(w, c, p) ==> Outranks(w, c, modifier, s, p)
  {
    hide Times;
    assert InTime(c, chosen, stop, i) by {
      if c[i].time > stop && i != j {
        assert Before(c[i], c[j]);
      }
    }
    forall s, p | InTime(c, chosen, stop, s) && IsStake(w, c, s) && InTime(c, chosen, stop, p) && !IsStake(w, c, p)
      ensures Outranks(w, c, modifier, s, p) <==>
                Weight(w, modifier, c[s].hash) < Weight(w, modifier, c[p].hash)
                || (Weight(w, modifier, c[s].hash) == Weight(w, modifier, c[p].hash) && s < p)
    {
      FactorDivides(Digest(w, c, modifier, s), Digest(w, c, modifier, p));
    }
    if IsStake(w, c, i) {
      assert forall p :: InTime(c, chosen, stop, p) && !IsStake(w, c, p) ==> Outranks(w, c, modifier, i, p);
    }
  }

  /** So it does whenever no proof-of-work digest in time is below 2^224, digests being below 2^256. */
  lemma StakeUsuallyWins(w: World, c: seq<Candidate>, chosen: set<Hash>, stop: int, modifier: nat, i: int, j: int, bound: nat)
    requires Known(w, c) && InOrder(c) && Unsigned(w, modifier) && IsPick(w, c, chosen, stop, modifier, i)
    requires InTime(c, chosen, stop, j) && IsStake(w, c, j) && Digest(w, c, modifier, j) < Times(bound, STAKE_FACTOR)
    requires forall p :: InTime(c, chosen, stop, p) && !IsStake(w, c, p) ==> Digest(w, c, modifier, p) >= bound
    ensures IsStake(w, c, i)
  {
    hide Times, IsPick;
    StakeWinsIff(w, c, chosen, stop, modifier, i, j);
    forall p | InTime(c, chosen, stop, p) && !IsStake(w, c, p) ensures Outranks(w, c, modifier, j, p) {
      TimesMonotone(STAKE_FACTOR, bound, Digest(w, c, modifier, p));
    }
  }

  /** Not always: a proof-of-work digest of 0 beats a proof-of-stake digest of 2^32. */
  lemma WorkCanWin()
    ensures
      var w := World(map[1 := Header(10, false, 0, true, 0, false), 2 := Header(20, true, 5, true, 0, false)],
                     (h, m) => if h == 1 then 0 else STAKE_FACTOR);
      var c := [Candidate(10, 1), Candidate(20, 2)];
      Known(w, c) && InOrder(c) && InTime(c, {}, 30, 1) && IsStake(w, c, 1) && !IsStake(w, c, 0) && IsPick(w, c, {}, 30, 0, 0)
  {
  }

  /** `SelectBlockFromCandidates`: one pass with an early exit past the stop time. */
  method SelectBlock(w: World, c: seq<Candidate>, chosen: set<Hash>, stop: int, modifier: nat) returns (best: int)
    requires Known(w, c) && InOrder(c)
    ensures best == -1 <==> forall i :: !Open(c, chosen, i)
    ensures best != -1 ==> IsPick(w, c, chosen, stop, modifier, best)
  {
    best := -1;
    var least := 0;
    var i := 0;
    while i < |c|
      invariant 0 <= i <= |c| && -1 <= best < i
      invariant best == -1 ==> forall j :: 0 <= j < i ==> !Open(c, chosen, j)
      invariant best != -1 ==> least == Weight(w, modifier, c[best].hash) && PickSoFar(w, c, chosen, stop, modifier, best, i)
    {
      if best != -1 && c[i].time > stop {
        RestIsLate(w, c, chosen, stop, modifier, best, i);
        return;
      }
      if c[i].hash !in chosen {
        var weight := Weight(w, modifier, c[i].hash);
        if best != -1 {
          assert Before(c[best], c[i]);
        }
        if best == -1 || weight < least {
          best, least := i, weight;
        }
      }
      i := i + 1;
    }
    if best != -1 {
      assert IsPick(w, c, chosen, stop, modifier, best);
    }
  }

  /** The pick among the first `n` candidates. */
  ghost predicate PickSoFar(w: World, c: seq<Candidate>, chosen: set<Hash>, stop: int, modifier: nat, i: int, n: int)
    requires Known(w, c) && 0 <= n <= |c|
  {
    && Open(c, chosen, i) && i < n
    && (c[i].time > stop ==> forall j :: Open(c, chosen, j) && j < n ==> i <= j)
    && (c[i].time <= stop ==> forall j :: Open(c, chosen, j) && j < n && c[j].time <= stop ==>
          Weight(w, modifier, c[i].hash) < Weight(w, modifier, c[j].hash)
          || (Weight(w, modifier, c[i].hash) == Weight(w, modifier, c[j].hash) && i <= j))
  }

  lemma RestIsLate(w: World, c: seq<Candidate>, chosen: set<Hash>, stop: int, modifier: nat, i: int, n: int)
    requires Known(w, c) && InOrder(c) && 0 <= n < |c| && c[n].time > stop
    requires PickSoFar(w, c, chosen, stop, modifier, i, n)
    ensures IsPick(w, c, chosen, stop, modifier, i)
  {
    forall j | n < j < |c| ensures c[j].time > stop {
      assert Before(c[n], c[j]);
    }
  }

  // ----------------------------------------------------------------- all rounds

  function Bit(b: bool): nat {
    if b then 1 else 0
  }

  /** Bit `r` of the modifier is the entropy bit of pick `r`. */
  function Modifier(w: World, picks: seq<Hash>): nat
    requires forall i :: 0 <= i < |picks| ==> picks[i] in w.headers
  {
    if picks == [] then 0
    else
      var n := |picks| - 1;
      Modifier(w, picks[..n]) + Bit(w.headers[picks[n]].entropy) * Pow2(n)
  }

  lemma {:induction false} ModifierBelow(w: World, picks: seq<Hash>)
    requires forall i :: 0 <= i < |picks| ==> picks[i] in w.headers
    ensures Modifier(w, picks) < Pow2(|picks|)
    decreases |picks|
  {
    if picks != [] {
      ModifierBelow(w, picks[..|picks| - 1]);
    }
  }

  lemma QuotientShift(a: nat, k: nat, m: nat)
    requires m > 0
    ensures (a + Times(k, m)) / m == a / m + k
  {
    hide Times;
    var q := a / m;
    Quotient(a, m, q);
    TimesAdds(q, k, m);
    Quotient(a + Times(k, m), m, q + k);
  }

  /** A higher power of two is an even multiple of a lower one. */
  function Evens(r: nat, n: nat): (k: nat)
    requires r < n
  {
    if r == n - 1 then 1 else 2 * Evens(r, n - 1)
  }

  lemma {:induction false} Pow2Splits(r: nat, n: nat)
    requires r < n
    ensures Pow2(n) == Times(2 * Evens(r, n), Pow2(r))
  {
    if r < n - 1 {
      Pow2Splits(r, n - 1);
      TimesAdds(2 * Evens(r, n - 1), 2 * Evens(r, n - 1), Pow2(r));
    }
  }

  lemma Scaled(bit: nat, x: nat)
    requires bit <= 1
    ensures bit * x == if bit == 1 then x else 0
  {
  }

  lemma EvenMultiple(a: nat, k: nat, m: nat)
    requires m > 0
    ensures (a + Times(2 * k, m)) / m % 2 == a / m % 2
  {
    hide Times;
    QuotientShift(a, 2 * k, m);
    EvenAdded(a / m, k);
  }

  lemma BitUnmoved(a: nat, bit: nat, r: nat, n: nat)
    requires r < n && bit <= 1
    ensures (a + bit * Pow2(n)) / Pow2(r) % 2 == a / Pow2(r) % 2
  {
    hide Pow2, Times, Evens;
    Scaled(bit, Pow2(n));
    Pow2Splits(r, n);
    EvenMultiple(a, Evens(r, n), Pow2(r));
  }

  lemma EvenAdded(q: nat, k: nat)
    ensures (q + 2 * k) % 2 == q % 2
  {
  }

  lemma BitOnTop(a: nat, bit: nat, n: nat)
    requires a < Pow2(n) && bit <= 1
    ensures (a + bit * Pow2(n)) / Pow2(n) % 2 == bit
  {
    hide Pow2;
    Quotient(a + bit * Pow2(n), Pow2(n), bit);
  }

  lemma BitAbove(a: nat, n: nat, r: nat)
    requires a < Pow2(n) && n <= r
    ensures a / Pow2(r) == 0
  {
    hide Pow2;
    Pow2Grows(n, r);
    Quotient(a, Pow2(r), 0);
  }

  /** Reading bit `r` back gives the entropy bit of pick `r`; the bits above are zero. */
  lemma {:induction false} ModifierBits(w: World, picks: seq<Hash>, r: nat)
    requires forall i :: 0 <= i < |picks| ==> picks[i] in w.headers
    ensures r < |picks| ==> Modifier(w, picks) / Pow2(r) % 2 == Bit(w.headers[picks[r]].entropy)
    ensures r >= |picks| ==> Modifier(w, picks) / Pow2(r) == 0
    decreases |picks|
  {
    hide Pow2;
    if r >= |picks| {
      ModifierBelow(w, picks);
      BitAbove(Modifier(w, picks), |picks|, r);
    } else {
      var n := |picks| - 1;
      var front, bit := picks[..n], Bit(w.headers[picks[n]].entropy);
      if r == n {
        ModifierBelow(w, front);
        BitOnTop(Modifier(w, front), bit, n);
      } else {
        ModifierBits(w, front, r);
        BitUnmoved(Modifier(w, front), bit, r, n);
      }
    }
  }

  lemma {:induction false} Pow2Grows(a: nat, b: nat)
    requires a <= b
    ensures 0 < Pow2(a) <= Pow2(b)
  {
    if a < b {
      Pow2Grows(a, b - 1);
    } else if a > 0 {
      Pow2Grows(a - 1, a - 1);
    }
  }

  function SetOf(s: seq<Hash>): set<Hash> {
    set h | h in s
  }

  /** Round `r` picked the block that its stop time and the earlier picks leave as the best. */
  ghost predicate RoundOk(w: World, p: Params, c: seq<Candidate>, start: int, modifier: nat, picks: seq<Hash>, r: int)
    requires Valid(p) && Known(w, c) && 0 <= r < |picks| <= ROUNDS
  {
    exists i :: 0 <= i < |c| && c[i].hash == picks[r]
      && IsPick(w, c, SetOf(picks[..r]), start + Sections(p, r + 1), modifier, i)
  }

  lemma {:induction false} EnoughOpen(c: seq<Candidate>, picks: seq<Hash>)
    requires InOrder(c) && |picks| < |c|
    requires forall i, j :: 0 <= i < j < |c| ==> c[i].hash != c[j].hash
    ensures exists i :: Open(c, SetOf(picks), i)
  {
    if forall i :: !Open(c, SetOf(picks), i) {
      forall i | 0 <= i < |c| ensures c[i].hash in picks {
        assert !Open(c, SetOf(picks), i);
      }
      Pigeonhole(c, picks);
      assert false;
    }
  }

  lemma {:induction false} Pigeonhole(c: seq<Candidate>, picks: seq<Hash>)
    requires forall i :: 0 <= i < |c| ==> c[i].hash in picks
    requires forall i, j :: 0 <= i < j < |c| ==> c[i].hash != c[j].hash
    ensures |c| <= |picks|
    decreases |c|
  {
    if c != [] {
      var n := |c| - 1;
      var k :| 0 <= k < |picks| && picks[k] == c[n].hash;
      var rest := picks[..k] + picks[k + 1..];
      forall i | 0 <= i < n ensures c[..n][i].hash in rest {
        var j :| 0 <= j < |picks| && picks[j] == c[i].hash;
        assert rest[if j < k then j else j - 1] == c[i].hash;
      }
      Pigeonhole(c[..n], rest);
    }
  }

  lemma RoundStays(w: World, p: Params, c: seq<Candidate>, start: int, modifier: nat, picks: seq<Hash>, h: Hash, r: int)
    requires Valid(p) && Known(w, c) && 0 <= r < |picks| < ROUNDS && RoundOk(w, p, c, start, modifier, picks, r)
    ensures RoundOk(w, p, c, start, modifier, picks + [h], r)
  {
    hide IsPick, Sections;
    assert (picks + [h])[..r] == picks[..r];
  }

  /** What is known of the picks so far. */
  ghost predicate Selected(w: World, p: Params, c: seq<Candidate>, start: int, modifier: nat, picks: seq<Hash>)
    requires Valid(p) && Known(w, c)
  {
    && |picks| <= ROUNDS
    && Distinct(picks)
    && (forall r :: 0 <= r < |picks| ==> picks[r] in w.headers)
    && (forall r :: 0 <= r < |picks| ==> RoundOk(w, p, c, start, modifier, picks, r))
  }

  lemma RoundsNext(w: World, p: Params, c: seq<Candidate>, start: int, modifier: nat, picks: seq<Hash>, i: int)
    requires Valid(p) && Known(w, c) && |picks| < ROUNDS && 0 <= i < |c|
    requires forall r :: 0 <= r < |picks| ==> RoundOk(w, p, c, start, modifier, picks, r)
    requires IsPick(w, c, SetOf(picks), start + Sections(p, |picks| + 1), modifier, i)
    ensures
      var more := picks + [c[i].hash];
      forall r :: 0 <= r < |more| ==> RoundOk(w, p, c, start, modifier, more, r)
  {
    hide IsPick, Sections, RoundOk, Known, SetOf;
    var h := c[i].hash;
    var more := picks + [h];
    assert more[..|picks|] == picks;
    RoundNew(w, p, c, start, modifier, more, i);
    forall r | 0 <= r < |picks| ensures RoundOk(w, p, c, start, modifier, more, r) {
      RoundStays(w, p, c, start, modifier, picks, h, r);
    }
  }

  lemma DistinctNext(picks: seq<Hash>, h: Hash)
    requires Distinct(picks) && h !in SetOf(picks)
    ensures Distinct(picks + [h])
  {
  }

  lemma ModifierNext(w: World, picks: seq<Hash>, h: Hash)
    requires h in w.headers && forall r :: 0 <= r < |picks| ==> picks[r] in w.headers
    ensures Modifier(w, picks + [h]) == Modifier(w, picks) + Bit(w.headers[h].entropy) * Pow2(|picks|)
  {
    hide Pow2;
    assert (picks + [h])[..|picks|] == picks;
  }

  lemma SelectedNext(w: World, p: Params, c: seq<Candidate>, start: int, modifier: nat, picks: seq<Hash>, i: int)
    requires Valid(p) && Known(w, c) && Selected(w, p, c, start, modifier, picks) && |picks| < ROUNDS
    requires IsPick(w, c, SetOf(picks), start + Sections(p, |picks| + 1), modifier, i)
    ensures Selected(w, p, c, start, modifier, picks + [c[i].hash])
    ensures Modifier(w, picks + [c[i].hash]) == Modifier(w, picks) + Bit(w.headers[c[i].hash].entropy) * Pow2(|picks|)
  {
    hide IsPick, Sections, RoundOk, Distinct, SetOf, Modifier, Pow2, Bit;
    PickIsOpen(w, c, SetOf(picks), start + Sections(p, |picks| + 1), modifier, i);
    RoundsNext(w, p, c, start, modifier, picks, i);
    DistinctNext(picks, c[i].hash);
    ModifierNext(w, picks, c[i].hash);
  }

  lemma RoundNew(w: World, p: Params, c: seq<Candidate>, start: int, modifier: nat, picks: seq<Hash>, i: int)
    requires Valid(p) && Known(w, c) && 0 < |picks| <= ROUNDS && 0 <= i < |c| && c[i].hash == picks[|picks| - 1]
    requires IsPick(w, c, SetOf(picks[..|picks| - 1]), start + Sections(p, |picks|), modifier, i)
    ensures RoundOk(w, p, c, start, modifier, picks, |picks| - 1)
  {
    hide IsPick, Sections;
  }

  lemma PickIsOpen(w: World, c: seq<Candidate>, chosen: set<Hash>, stop: int, modifier: nat, i: int)
    requires Known(w, c) && IsPick(w, c, chosen, stop, modifier, i)
    ensures 0 <= i < |c| && c[i].hash !in chosen
  {
  }

  /**
   * The rounds: each picks a different block, none fails to find one, and the stop time is the start
   * plus the sections used.
   */
  method SelectRounds(w: World, p: Params, c: seq<Candidate>, start: int, modifier: nat)
    returns (next: nat, picks: seq<Hash>, stop: int)
    requires Valid(p) && Known(w, c) && InOrder(c)
    requires forall i, j :: 0 <= i < j < |c| ==> c[i].hash != c[j].hash
    ensures |picks| == Min(ROUNDS, |c|) && Selected(w, p, c, start, modifier, picks)
    ensures next == Modifier(w, picks) && stop == start + Sections(p, |picks|)
  {
    hide IsPick, RoundOk, Modifier, Pow2, Section;
    next, picks, stop := 0, [], start;
    assert next == Modifier(w, picks) by {
      ModifierNone(w);
    }
    var chosen: set<Hash> := {};
    for round := 0 to Min(ROUNDS, |c|)
      invariant |picks| == round && Selected(w, p, c, start, modifier, picks) && chosen == SetOf(picks)
      invariant next == Modifier(w, picks) && stop == start + Sections(p, round)
    {
      stop := stop + Section(p, round);
      var i := SelectBlock(w, c, chosen, stop, modifier);
      EnoughOpen(c, picks);
      PickIsOpen(w, c, chosen, stop, modifier, i);
      SelectedNext(w, p, c, start, modifier, picks, i);
      // each round writes its own bit, so the disjunction is a sum
      next := next + Bit(w.headers[c[i].hash].entropy) * Pow2(round);
      chosen := chosen + {c[i].hash};
      picks := picks + [c[i].hash];
    }
  }

  lemma ModifierNone(w: World)
    ensures Modifier(w, []) == 0
  {
  }

  // ------------------------------------------------------- the whole computation

  /** The blocks from the previous one backwards, by hash, the oldest last. */
  type Chain = seq<Hash>

  predicate Indexed(w: World, chain: Chain) {
    Distinct(chain) && forall i :: 0 <= i < |chain| ==> chain[i] in w.headers
  }

  function LastGenerated(w: World, chain: Chain): Option<Hash>
    requires Indexed(w, chain)
  {
    if chain == [] then None
    else if w.headers[chain[0]].generated then Some(chain[0])
    else LastGenerated(w, chain[1..])
  }

  /** The nearest block that generated a modifier; none is found exactly when none did. */
  lemma {:induction false} LastGeneratedIs(w: World, chain: Chain)
    requires Indexed(w, chain)
    ensures
      var r := LastGenerated(w, chain);
      && (r.None? <==> forall i :: 0 <= i < |chain| ==> !w.headers[chain[i]].generated)
      && (r.Some? ==>
            exists i :: 0 <= i < |chain| && chain[i] == r.value && w.headers[chain[i]].generated
              && forall j :: 0 <= j < i ==> !w.headers[chain[j]].generated)
    decreases |chain|
  {
    if chain != [] && !w.headers[chain[0]].generated {
      var rest := chain[1..];
      LastGeneratedIs(w, rest);
      assert forall i :: 0 < i < |chain| ==> chain[i] == rest[i - 1];
      var r := LastGenerated(w, rest);
      if r.Some? {
        var i :| 0 <= i < |rest| && rest[i] == r.value && w.headers[rest[i]].generated
          && forall j :: 0 <= j < i ==> !w.headers[rest[j]].generated;
        assert chain[i + 1] == r.value;
        assert forall j :: 0 <= j < i + 1 ==> !w.headers[chain[j]].generated;
      } else {
        forall i | 0 <= i < |chain| ensures !w.headers[chain[i]].generated {
          assert i > 0 ==> !w.headers[rest[i - 1]].generated;
        }
      }
    }
  }

  lemma LastGeneratedKnown(w: World, chain: Chain)
    requires Indexed(w, chain)
    ensures LastGenerated(w, chain).Some? ==> LastGenerated(w, chain).value in chain && LastGenerated(w, chain).value in w.headers
  {
    hide LastGenerated;
    LastGeneratedIs(w, chain);
  }

  /** `GetLastStakeModifier`. */
  method GetLastStakeModifier(w: World, chain: Chain) returns (r: Option<Hash>)
    requires Indexed(w, chain)
    ensures r == LastGenerated(w, chain)
  {
    var i := 0;
    assert chain[0..] == chain;
    while i < |chain|
      invariant 0 <= i <= |chain| && LastGenerated(w, chain[i..]) == LastGenerated(w, chain)
    {
      if w.headers[chain[i]].generated {
        return Some(chain[i]);
      }
      assert chain[i..][1..] == chain[i + 1..];
      i := i + 1;
    }
    return None;
  }

  /** The blocks back to the first one older than the start. */
  function Recent(w: World, chain: Chain, start: int): seq<Candidate>
    requires Indexed(w, chain)
  {
    if chain == [] || w.headers[chain[0]].time < start then []
    else [Candidate(w.headers[chain[0]].time, chain[0])] + Recent(w, chain[1..], start)
  }

  lemma {:induction false} RecentKnown(w: World, chain: Chain, start: int)
    requires Indexed(w, chain)
    ensures
      var c := Recent(w, chain, start);
      && |c| <= |chain| && (forall i :: 0 <= i < |c| ==> c[i] == Candidate(w.headers[chain[i]].time, chain[i]))
      && (forall i :: 0 <= i < |c| ==> c[i].time >= start)
      && (|c| < |chain| ==> w.headers[chain[|c|]].time < start)
  {
    if chain != [] && w.headers[chain[0]].time >= start {
      RecentKnown(w, chain[1..], start);
    }
  }

  method CollectRecent(w: World, chain: Chain, start: int) returns (c: seq<Candidate>)
    requires Indexed(w, chain)
    ensures c == Recent(w, chain, start)
  {
    c := [];
    var i := 0;
    assert chain[0..] == chain && [] + Recent(w, chain, start) == Recent(w, chain, start);
    while i < |chain|
      invariant 0 <= i <= |chain| && c + Recent(w, chain[i..], start) == Recent(w, chain, start)
    {
      var time := w.headers[chain[i]].time;
      if time < start {
        return;
      }
      assert chain[i..][1..] == chain[i + 1..];
      assert c + ([Candidate(time, chain[i])] + Recent(w, chain[i + 1..], start))
          == (c + [Candidate(time, chain[i])]) + Recent(w, chain[i + 1..], start);
      c := c + [Candidate(time, chain[i])];
      i := i + 1;
    }
  }

  /** The latest multiple of the interval not after `time`. */
  function Aligned(p: Params, time: nat): nat
    requires Valid(p)
  {
    time / p.interval * p.interval
  }

  lemma AlignedIs(p: Params, time: nat)
    requires Valid(p)
    ensures exists k: nat :: Aligned(p, time) == Times(k, p.interval) && Times(k, p.interval) <= time < Times(k + 1, p.interval)
  {
    var k := time / p.interval;
    Quotient(time, p.interval, k);
    assert Aligned(p, time) == Times(k, p.interval);
    TimesAdds(k, 1, p.interval);
  }

  /** The modifier is not due while the last one was generated in the current interval or later. */
  predicate Due(w: World, p: Params, chain: Chain)
    requires Valid(p) && Indexed(w, chain) && chain != [] && LastGenerated(w, chain).Some?
  {
    LastGeneratedKnown(w, chain);
    w.headers[LastGenerated(w, chain).value].time / p.interval < w.headers[chain[0]].time / p.interval
  }

  /** A modifier is due when a multiple of the interval lies after the last one generated, up to the previous block. */
  lemma DueIff(w: World, p: Params, chain: Chain)
    requires Valid(p) && Indexed(w, chain) && chain != [] && LastGenerated(w, chain).Some?
    ensures LastGenerated(w, chain).value in w.headers
    ensures
      var last, time := w.headers[LastGenerated(w, chain).value].time, w.headers[chain[0]].time;
      Due(w, p, chain) <==> exists k: nat :: last < Times(k, p.interval) <= time
  {
    hide Times, LastGenerated;
    LastGeneratedKnown(w, chain);
    var last, time := w.headers[LastGenerated(w, chain).value].time, w.headers[chain[0]].time;
    var a, b := last / p.interval, time / p.interval;
    Quotient(last, p.interval, a);
    Quotient(time, p.interval, b);
    TimesAdds(a, 1, p.interval);
    TimesAdds(b, 1, p.interval);
    TimesOne(p.interval);
    if a < b {
      TimesMonotone(p.interval, a + 1, b);
    }
    forall k: nat | last < Times(k, p.interval) <= time ensures a < b {
      if k <= a {
        TimesMonotone(p.interval, k, a);
      } else if b < k {
        TimesMonotone(p.interval, b + 1, k);
      }
    }
  }

  datatype Outcome = Outcome(modifier: nat, generated: bool)

  /**
   * `ComputeNextStakeModifier`: fails only when no ancestor ever generated a modifier. When one is due, it
   * is built from the picks of the rounds, and 64 rounds end exactly on the interval boundary.
   */
  method ComputeNextStakeModifier(w: World, p: Params, chain: Chain)
    returns (r: Option<Outcome>, c: seq<Candidate>, picks: seq<Hash>, stop: int)
    requires Valid(p) && Indexed(w, chain)
    ensures chain == [] ==> r == Some(Outcome(0, true))
    ensures chain != [] ==> (r.None? <==> LastGenerated(w, chain).None?)
    ensures chain != [] && LastGenerated(w, chain).Some? && !Due(w, p, chain) ==>
              var h := LastGenerated(w, chain).value;
              h in w.headers && r == Some(Outcome(w.headers[h].modifier, false))
    ensures chain != [] && LastGenerated(w, chain).Some? && Due(w, p, chain) ==>
              var h := LastGenerated(w, chain).value;
              var aligned := Aligned(p, w.headers[chain[0]].time);
              var start := aligned - Sections(p, ROUNDS);
              && h in w.headers && Known(w, c) && InOrder(c)
              && |c| == |Recent(w, chain, start)| && (forall x :: x in c <==> x in Recent(w, chain, start))
              && |picks| == Min(ROUNDS, |c|) && Selected(w, p, c, start, w.headers[h].modifier, picks)
              && r == Some(Outcome(Modifier(w, picks), true))
              && (|picks| == ROUNDS ==> stop == aligned)
  {
    hide Selected, Modifier, Sections, Recent, LastGenerated;
    c, picks, stop := [], [], 0;
    if chain == [] {
      return Some(Outcome(0, true)), c, picks, stop;
    }
    var last := GetLastStakeModifier(w, chain);
    if last.None? {
      return None, c, picks, stop;
    }
    LastGeneratedKnown(w, chain);
    var modifier, time := w.headers[last.value].modifier, w.headers[chain[0]].time;
    if w.headers[last.value].time / p.interval >= time / p.interval {
      return Some(Outcome(modifier, false)), c, picks, stop;
    }
    var length := SelectionInterval(p);
    var start := Aligned(p, time) - length;
    var recent := CollectRecent(w, chain, start);
    RecentDistinct(w, chain, start);
    c := Sort(recent);
    SortedKnown(w, recent, c);
    var next;
    next, picks, stop := SelectRounds(w, p, c, start, modifier);
    r := Some(Outcome(next, true));
  }

  lemma RecentDistinct(w: World, chain: Chain, start: int)
    requires Indexed(w, chain)
    ensures
      var c := Recent(w, chain, start);
      Known(w, c) && forall i, j :: 0 <= i < j < |c| ==> c[i].hash != c[j].hash
  {
    hide Recent;
    RecentKnown(w, chain, start);
  }

  lemma SortedKnown(w: World, a: seq<Candidate>, c: seq<Candidate>)
    requires Known(w, a) && InOrder(c) && forall x :: x in c <==> x in a
    ensures Known(w, c) && forall i, j :: 0 <= i < j < |c| ==> c[i].hash != c[j].hash
  {
    forall i | 0 <= i < |c| ensures c[i].hash in w.headers && w.headers[c[i].hash].time == c[i].time {
      assert c[i] in a;
    }
    forall i, j | 0 <= i < j < |c| ensures c[i].hash != c[j].hash {
      assert Before(c[i], c[j]);
    }
  }
}
