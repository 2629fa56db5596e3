/** Merging two sets of signatures for one multisignature script. */
module CombineSignatures {
  import opened Basics
  import opened ScriptCodec
  import opened ScriptNum
  import opened ScriptMachine
  import opened ScriptEval
  import opened Multisig
  import opened MultisigScripts
  import opened SigOps

  type Check = (Bytes, Bytes) -> bool

  /** The signatures offered; placeholders are left out. */
  function Offered(sigs: seq<Bytes>): set<Bytes> {
    set s | s in sigs && s != []
  }

  method Collect(sigs1: seq<Bytes>, sigs2: seq<Bytes>) returns (all: set<Bytes>)
    ensures all == Offered(sigs1) + Offered(sigs2)
  {
    all := {};
    for i := 0 to |sigs1|
      invariant all == Offered(sigs1[..i])
    {
      assert sigs1[..i + 1] == sigs1[..i] + [sigs1[i]];
      if sigs1[i] != [] {
        all := all + {sigs1[i]};
      }
    }
    assert sigs1[..|sigs1|] == sigs1;
    for i := 0 to |sigs2|
      invariant all == Offered(sigs1) + Offered(sigs2[..i])
    {
      assert sigs2[..i + 1] == sigs2[..i] + [sigs2[i]];
      if sigs2[i] != [] {
        all := all + {sigs2[i]};
      }
    }
    assert sigs2[..|sigs2|] == sigs2;
  }

  /** Every key has a signature from the set that checks for it. */
  predicate Sound(check: Check, keys: seq<Bytes>, all: set<Bytes>, matched: map<Bytes, Bytes>) {
    forall k :: k in matched ==> k in keys && matched[k] in all && check(matched[k], k)
  }

  /** A signature is in use, or every key it checks for has one. */
  predicate Placed(check: Check, keys: seq<Bytes>, matched: map<Bytes, Bytes>, sig: Bytes) {
    || (exists k :: k in matched && matched[k] == sig)
    || forall i :: 0 <= i < |keys| && check(sig, keys[i]) ==> keys[i] in matched
  }

  /** The inner loop: the first key without a signature that this one checks for. */
  method Place(check: Check, keys: seq<Bytes>, ghost all: set<Bytes>, matched: map<Bytes, Bytes>, sig: Bytes)
    returns (r: map<Bytes, Bytes>)
    requires Sound(check, keys, all, matched) && sig in all
    ensures Sound(check, keys, all, r) && Placed(check, keys, r, sig)
    ensures forall k :: k in matched ==> k in r && r[k] == matched[k]
  {
    r := matched;
    for i := 0 to |keys|
      invariant r == matched
      invariant forall j :: 0 <= j < i && check(sig, keys[j]) ==> keys[j] in matched
    {
      if keys[i] !in matched && check(sig, keys[i]) {
        r := matched[keys[i] := sig];
        assert r[keys[i]] == sig;
        return;
      }
    }
  }

  lemma PlacedStays(check: Check, keys: seq<Bytes>, m: map<Bytes, Bytes>, m': map<Bytes, Bytes>, sig: Bytes)
    requires Placed(check, keys, m, sig) && forall k :: k in m ==> k in m' && m'[k] == m[k]
    ensures Placed(check, keys, m', sig)
  {
    if k :| k in m && m[k] == sig {
      assert m'[k] == sig;
    }
  }

  /** The signatures are taken one by one, in any order. */
  method MatchSignatures(check: Check, keys: seq<Bytes>, all: set<Bytes>) returns (matched: map<Bytes, Bytes>)
    ensures Sound(check, keys, all, matched)
    ensures forall s :: s in all ==> Placed(check, keys, matched, s)
  {
    matched := map[];
    var left := all;
    while left != {}
      invariant left <= all && Sound(check, keys, all, matched)
      invariant forall s :: s in all && s !in left ==> Placed(check, keys, matched, s)
    {
      var sig :| sig in left;
      var next := Place(check, keys, all, matched, sig);
      forall s | s in all && s !in left ensures Placed(check, keys, next, s) {
        PlacedStays(check, keys, matched, next, s);
      }
      matched, left := next, left - {sig};
    }
  }

  /** The signatures in key order. */
  function InOrder(keys: seq<Bytes>, matched: map<Bytes, Bytes>): seq<Bytes> {
    if keys == [] then []
    else (if keys[0] in matched then [matched[keys[0]]] else []) + InOrder(keys[1..], matched)
  }

  lemma {:induction false} InOrderAppend(keys: seq<Bytes>, k: Bytes, matched: map<Bytes, Bytes>)
    ensures InOrder(keys + [k], matched) == InOrder(keys, matched) + if k in matched then [matched[k]] else []
  {
    if keys == [] {
      assert InOrder([k][1..], matched) == [];
    } else {
      InOrderAppend(keys[1..], k, matched);
      assert (keys + [k])[1..] == keys[1..] + [k];
    }
  }

  lemma {:induction false} InOrderPrefix(keys: seq<Bytes>, i: nat, matched: map<Bytes, Bytes>)
    requires i <= |keys|
    ensures InOrder(keys[..i], matched) <= InOrder(keys, matched)
    decreases |keys| - i
  {
    if i < |keys| {
      InOrderPrefix(keys, i + 1, matched);
      assert keys[..i + 1] == keys[..i] + [keys[i]];
      InOrderAppend(keys[..i], keys[i], matched);
    } else {
      assert keys[..i] == keys;
    }
  }

  function Blanks(n: nat): (r: seq<Bytes>)
    ensures |r| == n && forall i :: 0 <= i < n ==> r[i] == []
  {
    seq(n, i => [])
  }

  /** The first `required` signatures in key order, or all of them. */
  function Chosen(keys: seq<Bytes>, required: nat, matched: map<Bytes, Bytes>): seq<Bytes> {
    var s := InOrder(keys, matched);
    if |s| <= required then s else s[..required]
  }

  /** `CombineMultisig`: the extra element, the signatures in key order, and OP_0 for what is missing. */
  method CombineMultisig(check: Check, sigs1: seq<Bytes>, sigs2: seq<Bytes>, keys: seq<Bytes>, required: nat)
    returns (script: Bytes, matched: map<Bytes, Bytes>)
    ensures
      var all, chosen := Offered(sigs1) + Offered(sigs2), Chosen(keys, required, matched);
      && Sound(check, keys, all, matched)
      && (forall s :: s in all ==> Placed(check, keys, matched, s))
      && script == Pushes([[]] + chosen + Blanks(required - |chosen|))
  {
    hide Placed, Sound, Offered, InOrder, Push, Pushes, Blanks;
    var all := Collect(sigs1, sigs2);
    matched := MatchSignatures(check, keys, all);
    var have, i := 0, 0;
    ghost var sent: seq<Bytes> := [];
    script := [0];
    assert script == Pushes([[]]) by {
      OneBlank();
    }
    assert keys[..0] == [] && [[]] + sent == [[]];
    assert InOrder([], matched) == [] by {
      InOrderNone(matched);
    }
    while i < |keys| && have < required
      invariant 0 <= i <= |keys| && have == |sent| <= required
      invariant sent == InOrder(keys[..i], matched) && script == Pushes([[]] + sent)
    {
      assert keys[..i + 1] == keys[..i] + [keys[i]];
      InOrderAppend(keys[..i], keys[i], matched);
      if keys[i] in matched {
        var sig := matched[keys[i]];
        PushesAppend([[]] + sent, sig);
        assert ([[]] + sent) + [sig] == [[]] + (sent + [sig]);
        sent := sent + [sig];
        script := script + Push(sig);
        have := have + 1;
      }
      i := i + 1;
    }
    InOrderPrefix(keys, i, matched);
    assert keys[..|keys|] == keys;
    assert sent == Chosen(keys, required, matched);
    var n := have;
    assert [[]] + sent == [[]] + sent + Blanks(0) by {
      assert Blanks(0) == [];
    }
    while n < required
      invariant have <= n <= required && script == Pushes([[]] + sent + Blanks(n - have))
    {
      BlanksMore([[]] + sent, n - have);
      script := script + [0];
      n := n + 1;
    }
  }

  lemma InOrderNone(matched: map<Bytes, Bytes>)
    ensures InOrder([], matched) == []
  {
  }

  lemma OneBlank()
    ensures Push([]) == [0] && Pushes([[]]) == [0]
  {
    assert Pushes([[]]) == Push([]) + Pushes([]);
  }

  lemma BlanksMore(before: seq<Bytes>, n: nat)
    ensures Pushes(before + Blanks(n + 1)) == Pushes(before + Blanks(n)) + [0]
  {
    hide Push, Pushes;
    assert before + Blanks(n + 1) == (before + Blanks(n)) + [[]];
    PushesAppend(before + Blanks(n), []);
    OneBlank();
  }

  // ------------------------------------------------------ what the result proves

  /** When no signature checks for two keys, a key is signed exactly when some signature checks for it. */
  lemma MatchedIffSigned(check: Check, keys: seq<Bytes>, all: set<Bytes>, matched: map<Bytes, Bytes>, key: Bytes)
    requires Sound(check, keys, all, matched) && (forall s :: s in all ==> Placed(check, keys, matched, s)) && key in keys
    requires forall s, k, k' :: s in all && k in keys && k' in keys && check(s, k) && check(s, k') ==> k == k'
    ensures key in matched <==> exists s :: s in all && check(s, key)
  {
    if s :| s in all && check(s, key) {
      assert Placed(check, keys, matched, s);
      if k :| k in matched && matched[k] == s {
        assert check(s, k) && k == key;
      }
    }
    if key in matched {
      assert matched[key] in all && check(matched[key], key);
    }
  }

  lemma {:induction false} OrderedEmbeds(env: Env, code: Bytes, keys: seq<Bytes>, matched: map<Bytes, Bytes>, n: nat)
    requires forall k :: k in matched ==> Verifies(env, code, matched[k], k)
    requires n <= |InOrder(keys, matched)|
    ensures Embeds(env, code, InOrder(keys, matched)[..n], keys)
    decreases |keys|
  {
    hide Verifies, Matched;
    var s := InOrder(keys, matched);
    if n == 0 {
      NothingEmbeds(env, code, s[..n], keys);
    } else if keys[0] in matched {
      OrderedEmbeds(env, code, keys[1..], matched, n - 1);
      assert s[..n][1..] == InOrder(keys[1..], matched)[..n - 1];
      var f :| Matched(env, code, s[..n][1..], keys[1..], f);
      TakeKey(env, code, s[..n], keys, f);
    } else {
      OrderedEmbeds(env, code, keys[1..], matched, n);
      assert s == InOrder(keys[1..], matched);
      var f :| Matched(env, code, s[..n], keys[1..], f);
      MoreKeys(env, code, s[..n], keys, f);
    }
  }

  lemma {:induction false} WithoutNone(ops: seq<Bytes>, b: Bytes)
    requires b !in ops
    ensures Without(ops, b) == ops
  {
    if ops != [] {
      WithoutNone(ops[1..], b);
      assert ops == [ops[0]] + ops[1..];
    }
  }

  lemma EraseNothing(code: Bytes, b: Bytes)
    requires IsSingle(b) && b !in Split(code).ops
    ensures Erase(code, b) == code
  {
    hide Erase, Split, Join, Without, IsSingle;
    EraseFilters(code, b);
    WithoutNone(Split(code).ops, b);
    SplitJoins(code);
  }

  lemma {:induction false} EraseAllNothing(code: Bytes, sigs: seq<Bytes>)
    requires forall i :: 0 <= i < |sigs| ==> |sigs[i]| < 0x1_0000_0000 && Push(sigs[i]) !in Split(code).ops
    ensures EraseAll(code, sigs) == code
    decreases |sigs|
  {
    hide Erase, Split, Push, IsSingle;
    if sigs != [] {
      PushReads(sigs[0]);
      EraseNothing(code, Push(sigs[0]));
      EraseAllNothing(code, sigs[1..]);
    }
  }

  lemma NotScriptHash(required: nat, keys: seq<Bytes>)
    requires required <= |keys| <= 16
    ensures !IsPayToScriptHash(MultisigScript(required, keys))
  {
    hide Pushes;
    assert MultisigScript(required, keys)[0] == OpN(required);
  }

  /** Nothing the signature script pushes is itself an operation of the script it signs. */
  predicate Apart(script: Bytes, sigs: seq<Bytes>) {
    forall i :: 0 <= i < |sigs| ==> Push(sigs[i]) !in Split(script).ops
  }

  lemma ReverseApart(script: Bytes, sigs: seq<Bytes>)
    requires Apart(script, sigs) && Small(sigs)
    ensures EraseAll(script, Reverse(sigs)) == script
  {
    hide Reverse, Split, Push, EraseAll;
    var r := Reverse(sigs);
    forall i | 0 <= i < |r| ensures |r[i]| < 0x1_0000_0000 && Push(r[i]) !in Split(script).ops {
      ReverseAt(sigs, i);
    }
    EraseAllNothing(script, r);
  }

  /** When enough keys are matched, the combined script makes the input verify. */
  lemma CombinedVerifies(
    env: Env, check: Check, keys: seq<Bytes>, required: nat, all: set<Bytes>, matched: map<Bytes, Bytes>)
    requires required <= |keys| <= 16 && Small(keys)
    requires Sound(check, keys, all, matched) && required <= |InOrder(keys, matched)|
    requires
      var script, sigs := MultisigScript(required, keys), Chosen(keys, required, matched);
      && (forall s, k :: check(s, k) ==> Verifies(env, script, s, k))
      && |script| <= MAX_SCRIPT && |Pushes([[]] + sigs)| <= MAX_SCRIPT && Small(sigs) && Apart(script, sigs)
      && (env.strict ==> AllEncoded(env, sigs, keys))
    ensures
      var sigs := Chosen(keys, required, matched);
      Verify(env, Pushes([[]] + sigs + Blanks(required - |sigs|)), MultisigScript(required, keys)).ok
  {
    hide InOrder, MultisigScript, Pushes, Apart, Embeds, EraseAll, Reverse, AllEncoded, Eval, Verifies,
      IsPayToScriptHash, Small;
    var script, sigs := MultisigScript(required, keys), Chosen(keys, required, matched);
    assert sigs == InOrder(keys, matched)[..required];
    assert forall k :: k in matched ==> Verifies(env, script, matched[k], k);
    assert [[]] + sigs + Blanks(0) == [[]] + sigs;
    OrderedEmbeds(env, script, keys, matched, required);
    ReverseApart(script, sigs);
    SmallBlank(sigs);
    PushAllEvaluates(env, [[]] + sigs, []);
    assert [] + ([[]] + sigs) == [[]] + sigs;
    NotScriptHash(required, keys);
    MultisigEvaluates(env, keys, [], [], sigs);
    assert [] + [[]] + sigs == [[]] + sigs;
    var second := Eval(env, script, [[]] + sigs);
    assert second.m.stack == [Flag(true)];
    assert ToBool(Flag(true)) by {
      assert Flag(true)[0] == 1;
    }
  }
}
