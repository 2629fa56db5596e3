/** CHECKMULTISIG: which signatures and keys pass, and scripts built to pass it. */
module Multisig {
  import opened Basics
  import opened ScriptCodec
  import opened ScriptNum
  import opened ScriptMachine
  import opened ScriptEval

  // --------------------------------------------- the loop and order-preserving matches

  /** Signature `i` verifies for key `f[i]`, and the keys come in the order of the signatures. */
  ghost predicate Matched(env: Env, code: Bytes, sigs: seq<Bytes>, keys: seq<Bytes>, f: seq<int>) {
    && |f| == |sigs|
    && (forall i :: 0 <= i < |f| ==> MatchedAt(env, code, sigs, keys, f, i))
    && Increasing(f)
  }

  predicate MatchedAt(env: Env, code: Bytes, sigs: seq<Bytes>, keys: seq<Bytes>, f: seq<int>, i: int)
    requires |f| == |sigs| && 0 <= i < |f|
  {
    0 <= f[i] < |keys| && Verifies(env, code, sigs[i], keys[f[i]])
  }

  predicate Increasing(f: seq<int>) {
    forall i, j :: 0 <= i < j < |f| ==> f[i] < f[j]
  }

  ghost predicate Embeds(env: Env, code: Bytes, sigs: seq<Bytes>, keys: seq<Bytes>) {
    exists f :: Matched(env, code, sigs, keys, f)
  }

  predicate AllEncoded(env: Env, sigs: seq<Bytes>, keys: seq<Bytes>) {
    && (forall i :: 0 <= i < |sigs| ==> env.sigOk(sigs[i]))
    && (forall i :: 0 <= i < |keys| ==> env.keyOk(keys[i]))
  }

  lemma {:induction false} AtLeastIndex(f: seq<int>, k: nat)
    requires k < |f| && f[0] >= 0 && Increasing(f)
    ensures f[k] >= k
  {
    if k > 0 {
      AtLeastIndex(f, k - 1);
    }
  }

  function Plus(f: seq<int>, d: int): (g: seq<int>)
    ensures |g| == |f|
  {
    seq(|f|, i requires 0 <= i < |f| => f[i] + d)
  }

  lemma PlusIncreasing(f: seq<int>, d: int)
    requires Increasing(f)
    ensures Increasing(Plus(f, d))
  {
  }

  lemma PlusAt(f: seq<int>, d: int, i: nat)
    requires i < |f|
    ensures Plus(f, d)[i] == f[i] + d
  {
  }

  /** A match that leaves the first key out is one on the other keys. */
  lemma SkipKey(env: Env, code: Bytes, sigs: seq<Bytes>, keys: seq<Bytes>, f: seq<int>)
    requires keys != [] && Matched(env, code, sigs, keys, f) && (f != [] ==> f[0] > 0)
    ensures Embeds(env, code, sigs, keys[1..])
  {
    hide Verifies, Plus;
    var g := Plus(f, -1);
    PlusIncreasing(f, -1);
    forall i | 0 <= i < |g| ensures MatchedAt(env, code, sigs, keys[1..], g, i) {
      assert MatchedAt(env, code, sigs, keys, f, i);
      PlusAt(f, -1, i);
      assert f[i] >= f[0];
      assert keys[1..][g[i]] == keys[f[i]];
    }
    assert Matched(env, code, sigs, keys[1..], g);
  }

  /** The same with one key more in front. */
  lemma MoreKeys(env: Env, code: Bytes, sigs: seq<Bytes>, keys: seq<Bytes>, f: seq<int>)
    requires keys != [] && Matched(env, code, sigs, keys[1..], f)
    ensures Matched(env, code, sigs, keys, Plus(f, 1))
  {
    hide Verifies, Plus;
    var g := Plus(f, 1);
    PlusIncreasing(f, 1);
    forall i | 0 <= i < |g| ensures MatchedAt(env, code, sigs, keys, g, i) {
      assert MatchedAt(env, code, sigs, keys[1..], f, i);
      PlusAt(f, 1, i);
      assert keys[1..][f[i]] == keys[g[i]];
    }
  }

  lemma UseKey(env: Env, code: Bytes, sigs: seq<Bytes>, keys: seq<Bytes>, f: seq<int>)
    requires sigs != [] && keys != [] && Matched(env, code, sigs, keys, f)
    ensures Embeds(env, code, sigs[1..], keys[1..])
  {
    hide Verifies;
    assert MatchedAt(env, code, sigs, keys, f, 0);
    forall i | 0 <= i < |f[1..]| ensures MatchedAt(env, code, sigs[1..], keys, f[1..], i) {
      assert MatchedAt(env, code, sigs, keys, f, i + 1);
    }
    assert Matched(env, code, sigs[1..], keys, f[1..]);
    assert |f| > 1 ==> f[0] < f[1];
    SkipKey(env, code, sigs[1..], keys, f[1..]);
  }

  lemma TakeKey(env: Env, code: Bytes, sigs: seq<Bytes>, keys: seq<Bytes>, f: seq<int>)
    requires sigs != [] && keys != [] && Verifies(env, code, sigs[0], keys[0])
    requires Matched(env, code, sigs[1..], keys[1..], f)
    ensures Embeds(env, code, sigs, keys)
  {
    hide Verifies, Plus;
    MoreKeys(env, code, sigs[1..], keys, f);
    var g := [0] + Plus(f, 1);
    forall i | 0 <= i < |g| ensures MatchedAt(env, code, sigs, keys, g, i) {
      if i > 0 {
        assert MatchedAt(env, code, sigs[1..], keys, Plus(f, 1), i - 1);
        assert g[i] == Plus(f, 1)[i - 1] && sigs[i] == sigs[1..][i - 1];
      }
    }
    forall i, j | 0 <= i < j < |g| ensures g[i] < g[j] {
      assert MatchedAt(env, code, sigs[1..], keys[1..], f, j - 1);
      PlusAt(f, 1, j - 1);
    }
    assert Matched(env, code, sigs, keys, g);
  }

  /** Taking the first key that fits loses no match. */
  lemma GreedyStep(env: Env, code: Bytes, sigs: seq<Bytes>, keys: seq<Bytes>)
    requires 0 < |sigs| <= |keys|
    ensures Embeds(env, code, sigs, keys) <==>
              Embeds(env, code, if Verifies(env, code, sigs[0], keys[0]) then sigs[1..] else sigs, keys[1..])
  {
    hide Verifies, Plus;
    var fits := Verifies(env, code, sigs[0], keys[0]);
    if Embeds(env, code, sigs, keys) {
      var f :| Matched(env, code, sigs, keys, f);
      assert MatchedAt(env, code, sigs, keys, f, 0);
      if fits {
        UseKey(env, code, sigs, keys, f);
      } else {
        SkipKey(env, code, sigs, keys, f);
      }
    }
    if Embeds(env, code, if fits then sigs[1..] else sigs, keys[1..]) {
      var f :| Matched(env, code, if fits then sigs[1..] else sigs, keys[1..], f);
      if fits {
        TakeKey(env, code, sigs, keys, f);
      } else {
        MoreKeys(env, code, sigs, keys, f);
      }
    }
  }

  lemma NothingEmbeds(env: Env, code: Bytes, sigs: seq<Bytes>, keys: seq<Bytes>)
    ensures sigs == [] ==> Embeds(env, code, sigs, keys)
    ensures |sigs| > |keys| ==> !Embeds(env, code, sigs, keys)
  {
    if sigs == [] {
      assert Matched(env, code, sigs, keys, []);
    }
    if |sigs| > |keys| && Embeds(env, code, sigs, keys) {
      var f :| Matched(env, code, sigs, keys, f);
      assert MatchedAt(env, code, sigs, keys, f, 0) && MatchedAt(env, code, sigs, keys, f, |f| - 1);
      AtLeastIndex(f, |f| - 1);
      assert false;
    }
  }

  /** The matching loop succeeds exactly when an order-preserving match exists. */
  lemma {:induction false} MatchIffEmbeds(env: Env, code: Bytes, sigs: seq<Bytes>, keys: seq<Bytes>)
    requires env.strict ==> AllEncoded(env, sigs, keys)
    ensures Match(env, code, sigs, keys).outcome == Some(Embeds(env, code, sigs, keys))
    decreases |keys|
  {
    hide Embeds;
    NothingEmbeds(env, code, sigs, keys);
    if 0 < |sigs| <= |keys| {
      GreedyStep(env, code, sigs, keys);
      MatchIffEmbeds(env, code, if Verifies(env, code, sigs[0], keys[0]) then sigs[1..] else sigs, keys[1..]);
    }
  }

  function Mirrored(f: seq<int>, n: int): (g: seq<int>)
    ensures |g| == |f|
  {
    seq(|f|, i requires 0 <= i < |f| => n - 1 - f[|f| - 1 - i])
  }

  lemma MirroredAt(f: seq<int>, n: int, i: nat)
    requires i < |f|
    ensures Mirrored(f, n)[i] == n - 1 - f[|f| - 1 - i]
  {
  }

  lemma MirroredIncreasing(f: seq<int>, n: int)
    requires Increasing(f)
    ensures Increasing(Mirrored(f, n))
  {
  }

  lemma MirrorAt(env: Env, code: Bytes, sigs: seq<Bytes>, keys: seq<Bytes>, f: seq<int>, i: nat)
    requires |f| == |sigs| && i < |f| && MatchedAt(env, code, sigs, keys, f, |f| - 1 - i)
    ensures MatchedAt(env, code, Reverse(sigs), Reverse(keys), Mirrored(f, |keys|), i)
  {
    hide Verifies, Reverse, Mirrored;
    MirroredAt(f, |keys|, i);
    ReverseAt(sigs, i);
    ReverseAt(keys, |keys| - 1 - f[|f| - 1 - i]);
  }

  lemma MirrorMatched(env: Env, code: Bytes, sigs: seq<Bytes>, keys: seq<Bytes>, f: seq<int>)
    requires Matched(env, code, sigs, keys, f)
    ensures Embeds(env, code, Reverse(sigs), Reverse(keys))
  {
    hide MatchedAt, Reverse, Mirrored, Increasing;
    var g := Mirrored(f, |keys|);
    MirroredIncreasing(f, |keys|);
    forall i | 0 <= i < |g| ensures MatchedAt(env, code, Reverse(sigs), Reverse(keys), g, i) {
      MirrorAt(env, code, sigs, keys, f, i);
    }
    assert Matched(env, code, Reverse(sigs), Reverse(keys), g);
  }

  lemma ReverseTwice<T>(s: seq<T>)
    ensures Reverse(Reverse(s)) == s
  {
    hide Reverse;
    var r := Reverse(Reverse(s));
    forall i | 0 <= i < |s| ensures r[i] == s[i] {
      ReverseAt(Reverse(s), i);
      ReverseAt(s, |s| - 1 - i);
    }
  }

  /** The stack turns both lists round; a match survives. */
  lemma EmbedsReversed(env: Env, code: Bytes, sigs: seq<Bytes>, keys: seq<Bytes>)
    ensures Embeds(env, code, Reverse(sigs), Reverse(keys)) <==> Embeds(env, code, sigs, keys)
  {
    hide Matched, Reverse;
    ReverseTwice(sigs);
    ReverseTwice(keys);
    if Embeds(env, code, sigs, keys) {
      var f :| Matched(env, code, sigs, keys, f);
      MirrorMatched(env, code, sigs, keys, f);
    }
    if Embeds(env, code, Reverse(sigs), Reverse(keys)) {
      var f :| Matched(env, code, Reverse(sigs), Reverse(keys), f);
      MirrorMatched(env, code, Reverse(sigs), Reverse(keys), f);
    }
  }

  /** The stack CHECKMULTISIG finds when `m sig... n key...` were pushed in order over one extra element. */
  function Laid(below: Stack, dummy: Bytes, sigs: seq<Bytes>, keys: seq<Bytes>): Stack {
    below + [dummy] + sigs + [Encode(|sigs|)] + keys + [Encode(|keys|)]
  }

  lemma SmallNumber(n: nat)
    requires n <= 127
    ensures ToNumber(Encode(n), 4) == Some(n)
  {
    NumberRoundTrip(n);
    if n > 0 {
      assert Digits(n) == [n as Byte] + Digits(0);
      assert |Digits(n)| == 1;
    }
  }

  lemma LaidAt(below: Stack, dummy: Bytes, sigs: seq<Bytes>, k: Bytes, keys: seq<Bytes>, n: Bytes)
    ensures
      var s := below + [dummy] + sigs + [k] + keys + [n];
      var at, at' := |below| + 1, |below| + |sigs| + 2;
      && |s| == at' + |keys| + 1 && s[..|below|] == below && s[|below|] == dummy
      && s[at..at + |sigs|] == sigs && s[at + |sigs|] == k
      && s[at'..at' + |keys|] == keys && s[at' + |keys|] == n
  {
  }

  lemma DownReversed(s: Stack, k: nat, n: nat)
    requires 1 <= k && k + n <= |s| + 1
    ensures Down(s, k, n) == Reverse(s[|s| + 1 - k - n..|s| + 1 - k])
  {
    hide Reverse;
    var part := s[|s| + 1 - k - n..|s| + 1 - k];
    forall i | 0 <= i < n ensures Down(s, k, n)[i] == Reverse(part)[i] {
      ReverseAt(part, i);
    }
  }

  lemma OperandsFrom(s: Stack, counted: nat, sigs: seq<Bytes>, keys: seq<Bytes>)
    requires |sigs| <= |keys| <= MAX_KEYS && counted + |keys| <= MAX_OPS && |sigs| + |keys| + 3 <= |s|
    requires Top(s, 1) == Encode(|keys|) && Top(s, |keys| + 2) == Encode(|sigs|)
    requires Down(s, 2, |keys|) == keys && Down(s, |keys| + 3, |sigs|) == sigs
    ensures MultisigOperands(s, counted) == Some(Operands(sigs, keys, |sigs| + |keys| + 3))
  {
    hide ToNumber, Down, Encode;
    SmallNumber(|sigs|);
    SmallNumber(|keys|);
  }

  lemma LaidParts(below: Stack, dummy: Bytes, sigs: seq<Bytes>, keys: seq<Bytes>)
    ensures
      var s, n, k := Laid(below, dummy, sigs, keys), |keys|, |sigs|;
      && |s| == |below| + n + k + 3
      && s[|s| - 1] == Encode(n) && s[|s| - n - 2] == Encode(k)
      && s[|s| - 1 - n..|s| - 1] == keys && s[|s| - 2 - n - k..|s| - 2 - n] == sigs
      && s[|below|] == dummy && s[..|below|] == below
  {
    hide Encode;
    LaidAt(below, dummy, sigs, Encode(|sigs|), keys, Encode(|keys|));
  }

  lemma LaidLists(below: Stack, dummy: Bytes, sigs: seq<Bytes>, keys: seq<Bytes>)
    ensures
      var s, n, k := Laid(below, dummy, sigs, keys), |keys|, |sigs|;
      && |s| == |below| + n + k + 3
      && Down(s, 2, n) == Reverse(keys) && Down(s, n + 3, k) == Reverse(sigs)
  {
    hide Encode, Reverse, Down, Laid;
    var s, n, k := Laid(below, dummy, sigs, keys), |keys|, |sigs|;
    LaidParts(below, dummy, sigs, keys);
    DownReversed(s, 2, n);
    DownReversed(s, n + 3, k);
  }

  lemma LaidEnds(below: Stack, dummy: Bytes, sigs: seq<Bytes>, keys: seq<Bytes>)
    ensures
      var s, n, k := Laid(below, dummy, sigs, keys), |keys|, |sigs|;
      && |s| == |below| + n + k + 3
      && Top(s, 1) == Encode(n) && Top(s, n + 2) == Encode(k)
      && Top(s, n + k + 3) == dummy && Drop(s, n + k + 3) == below
  {
    hide Encode, Laid;
    LaidParts(below, dummy, sigs, keys);
  }

  lemma LaidOperands(below: Stack, dummy: Bytes, sigs: seq<Bytes>, keys: seq<Bytes>, counted: nat)
    requires |sigs| <= |keys| <= MAX_KEYS && counted + |keys| <= MAX_OPS
    ensures MultisigOperands(Laid(below, dummy, sigs, keys), counted)
              == Some(Operands(Reverse(sigs), Reverse(keys), |sigs| + |keys| + 3))
  {
    hide Encode, Laid, Down, Reverse, MultisigOperands, Top, Drop, ToNumber;
    LaidEnds(below, dummy, sigs, keys);
    LaidLists(below, dummy, sigs, keys);
    OperandsFrom(Laid(below, dummy, sigs, keys), counted, Reverse(sigs), Reverse(keys));
  }

  lemma EncodedReversed(env: Env, sigs: seq<Bytes>, keys: seq<Bytes>)
    requires AllEncoded(env, sigs, keys)
    ensures AllEncoded(env, Reverse(sigs), Reverse(keys))
  {
    hide Reverse;
    forall i | 0 <= i < |sigs| ensures env.sigOk(Reverse(sigs)[i]) {
      ReverseAt(sigs, i);
    }
    forall i | 0 <= i < |keys| ensures env.keyOk(Reverse(keys)[i]) {
      ReverseAt(keys, i);
    }
  }

  /** The result once the operands are known and the loop has a verdict. */
  lemma MultisigFrom(env: Env, script: Bytes, m: Machine, o: Operands, b: bool)
    requires MultisigOperands(m.stack, m.counted) == Some(o)
    requires Match(env, SignedCode(script, m.codeStart, o.sigs), o.sigs, o.keys).outcome == Some(b)
    requires o.used > 0 && (env.nullDummy ==> Top(m.stack, o.used) == [])
    ensures
      var r := CheckMultisigOp(env, script, OP_CHECKMULTISIG, m);
      r.Ok? && r.m.stack == Drop(m.stack, o.used) + [Flag(b)] && r.m.alt == m.alt && r.m.counted == m.counted + |o.keys|
  {
    hide Match, SignedCode, MultisigOperands;
  }

  /** The loop's verdict on the operands as they lie on the stack. */
  lemma LaidMatch(env: Env, code: Bytes, sigs: seq<Bytes>, keys: seq<Bytes>)
    requires env.strict ==> AllEncoded(env, sigs, keys)
    ensures Match(env, code, Reverse(sigs), Reverse(keys)).outcome == Some(Embeds(env, code, sigs, keys))
  {
    hide Match, Embeds, Reverse, AllEncoded;
    if env.strict {
      EncodedReversed(env, sigs, keys);
    }
    MatchIffEmbeds(env, code, Reverse(sigs), Reverse(keys));
    EmbedsReversed(env, code, sigs, keys);
  }

  /** CHECKMULTISIG leaves true exactly when the signatures match keys in order. */
  lemma MultisigVerdict(env: Env, script: Bytes, m: Machine, below: Stack, dummy: Bytes, sigs: seq<Bytes>, keys: seq<Bytes>)
    requires m.stack == Laid(below, dummy, sigs, keys)
    requires |sigs| <= |keys| <= MAX_KEYS && m.counted + |keys| <= MAX_OPS
    requires (env.strict ==> AllEncoded(env, sigs, keys)) && (env.nullDummy ==> dummy == [])
    ensures
      var r := CheckMultisigOp(env, script, OP_CHECKMULTISIG, m);
      var code := SignedCode(script, m.codeStart, Reverse(sigs));
      && r.Ok? && r.m.stack == below + [Flag(Embeds(env, code, sigs, keys))] && r.m.alt == m.alt
      && r.m.counted == m.counted + |keys|
  {
    hide *;
    LaidOperands(below, dummy, sigs, keys, m.counted);
    LaidEnds(below, dummy, sigs, keys);
    var code := SignedCode(script, m.codeStart, Reverse(sigs));
    LaidMatch(env, code, sigs, keys);
    var o := Operands(Reverse(sigs), Reverse(keys), |sigs| + |keys| + 3);
    MultisigFrom(env, script, m, o, Embeds(env, code, sigs, keys));
  }

  /** More than 20 keys, more signatures than keys, more than 201 operations with the keys, or a used dummy are refused. */
  lemma MultisigRefuses(env: Env, script: Bytes, code: int, m: Machine, below: Stack, dummy: Bytes, sigs: seq<Bytes>,
                        keys: seq<Bytes>)
    requires m.stack == Laid(below, dummy, sigs, keys) && |sigs| <= 127 && |keys| <= 127
    requires |keys| > 20 || |sigs| > |keys| || m.counted + |keys| > 201 || (env.nullDummy && dummy != [])
    ensures CheckMultisigOp(env, script, code, m).Fail?
  {
    hide Laid, Match, SignedCode, Reverse, Encode, ToNumber, Down;
    LaidEnds(below, dummy, sigs, keys);
    SmallNumber(|sigs|);
    SmallNumber(|keys|);
  }

  /** Under strict encoding, a signature or key that is badly encoded fails the script as soon as it is tried. */
  lemma StrictRefuses(env: Env, script: Bytes, code: int, m: Machine, below: Stack, dummy: Bytes, sigs: seq<Bytes>,
                      keys: seq<Bytes>)
    requires m.stack == Laid(below, dummy, sigs, keys) && 0 < |sigs| <= |keys| <= 20 && env.strict
    requires !env.sigOk(sigs[|sigs| - 1]) || !env.keyOk(keys[|keys| - 1])
    ensures CheckMultisigOp(env, script, code, m).Fail?
  {
    hide Laid, SignedCode, Reverse, MultisigOperands;
    if m.counted + |keys| <= MAX_OPS {
      LaidOperands(below, dummy, sigs, keys, m.counted);
      ReverseAt(sigs, 0);
      ReverseAt(keys, 0);
    } else {
      MultisigRefuses(env, script, code, m, below, dummy, sigs, keys);
    }
  }
}
