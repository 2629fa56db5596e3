/** The static counts in closed form, on the standard scripts, and a run that needs all it is charged for. */
module SigOpCounts {
  import opened Basics
  import opened ScriptCodec
  import opened ScriptNum
  import opened ScriptMachine
  import opened ScriptEval
  import opened Multisig
  import opened MultisigScripts
  import opened PaymentScripts
  import opened SigOps

  /** What operation `i` is charged: 1 for CHECKSIG, the small number before CHECKMULTISIG or else 20. */
  function Charge(ops: seq<Instr>, i: int, accurate: bool): nat
    requires 0 <= i < |ops|
  {
    if ops[i].code == 0xac || ops[i].code == 0xad then 1
    else if ops[i].code == 0xae || ops[i].code == 0xaf then
      if accurate && i > 0 && 0x51 <= ops[i - 1].code <= 0x60 then ops[i - 1].code - 0x50 else 20
    else 0
  }

  function Charges(ops: seq<Instr>, n: nat, accurate: bool): nat
    requires n <= |ops|
  {
    if n == 0 then 0 else Charges(ops, n - 1, accurate) + Charge(ops, n - 1, accurate)
  }

  lemma {:induction false} CountFrom(ops: seq<Instr>, i: nat, last: int, accurate: bool)
    requires i <= |ops| && (if i == 0 then !(0x51 <= last <= 0x60) else last == ops[i - 1].code)
    ensures Charges(ops, i, accurate) + Count(ops[i..], last, accurate) == Charges(ops, |ops|, accurate)
    decreases |ops| - i
  {
    if i < |ops| {
      assert ops[i..][1..] == ops[i + 1..];
      CountFrom(ops, i + 1, ops[i].code, accurate);
    } else {
      assert ops[i..] == [];
    }
  }

  /** The count of a script is the sum of the charges of its operations. */
  lemma CountIs(script: Bytes, accurate: bool)
    ensures
      var ops := Parse(script, 0).ops;
      SigOpCount(script, accurate) == Charges(ops, |ops|, accurate)
  {
    hide Parse, Count, Charges;
    var ops := Parse(script, 0).ops;
    CountFrom(ops, 0, OP_INVALIDOPCODE, accurate);
    assert ops[0..] == ops;
    assert Charges(ops, 0, accurate) == 0 by {
      NoCharges(ops, accurate);
    }
  }

  lemma NoCharges(ops: seq<Instr>, accurate: bool)
    ensures Charges(ops, 0, accurate) == 0
  {
  }

  // ---------------------------------------------------------- the standard scripts

  lemma CountHeld(script: Bytes, pc: nat, b: Bytes, last: int, accurate: bool)
    requires Holds(script, pc, b) && IsSingle(b)
    ensures
      var code := ReadOp(b).value.code;
      Count(Parse(script, pc).ops, last, accurate) ==
        Cost(code, last, accurate) + Count(Parse(script, pc + |b|).ops, code, accurate)
  {
    hide ReadOp, Parse, Count, Cost;
    ReadHeld(script, pc, b);
    assert b != [] by {
      NothingIsSingle();
    }
    HeldInside(script, pc, b);
    ParseStep(script, pc);
    SingleNext(b);
    CountStep(Parse(script, pc).ops, last, accurate);
  }

  lemma CountEnds(script: Bytes, last: int, accurate: bool)
    ensures Count(Parse(script, |script|).ops, last, accurate) == 0
  {
    ParseEnd(script);
  }

  /** Pushes cost nothing. */
  lemma {:induction false} CountPushes(script: Bytes, pc: nat, values: seq<Bytes>, last: int, accurate: bool) returns (last': int)
    requires Holds(script, pc, Pushes(values)) && forall i :: 0 <= i < |values| ==> |values[i]| < 0x1_0000_0000
    ensures Count(Parse(script, pc).ops, last, accurate) == Count(Parse(script, pc + |Pushes(values)|).ops, last', accurate)
    decreases |values|
  {
    hide Parse, Count, Push, ReadOp, IsSingle, Holds;
    last' := last;
    if values != [] {
      var v, rest := values[0], values[1..];
      HoldsSplit(script, pc, Push(v), Pushes(rest));
      PushReads(v);
      CountHeld(script, pc, Push(v), last, accurate);
      last' := CountPushes(script, pc + |Push(v)|, rest, ReadOp(Push(v)).value.code, accurate);
    }
  }

  /** A multisignature script counts for its keys, and for 20 where the count is not accurate or there is no key. */
  lemma MultisigCount(required: nat, keys: seq<Bytes>)
    requires required <= |keys| <= 16 && Small(keys)
    ensures SigOpCount(MultisigScript(required, keys), true) == if keys == [] then 20 else |keys|
    ensures SigOpCount(MultisigScript(required, keys), false) == 20
  {
    MultisigCountOf(required, keys, true);
    MultisigCountOf(required, keys, false);
  }

  lemma MultisigCountOf(required: nat, keys: seq<Bytes>, accurate: bool)
    requires required <= |keys| <= 16 && Small(keys)
    ensures SigOpCount(MultisigScript(required, keys), accurate) == if accurate && keys != [] then |keys| else 20
  {
    hide Parse, Count, ReadOp, Holds, Pushes, OpN, MultisigScript;
    var script, at := MultisigScript(required, keys), 1 + |Pushes(keys)|;
    MultisigLayout(required, keys);
    SmallIsShort(keys);
    OpNReads(required);
    CountHeld(script, 0, [OpN(required)], OP_INVALIDOPCODE, accurate);
    var last := CountPushes(script, 1, keys, ReadOp([OpN(required)]).value.code, accurate);
    OpNReads(|keys|);
    CountHeld(script, at, [OpN(|keys|)], last, accurate);
    MultisigOpReads();
    CountHeld(script, at + 1, [OP_CHECKMULTISIG as Byte], ReadOp([OpN(|keys|)]).value.code, accurate);
    CountEnds(script, OP_CHECKMULTISIG, accurate);
  }

  /** Paying to a key, or to the hash of one, counts 1, however the data pushed may look. */
  lemma KeyCounts(key: Bytes, hash: Bytes, accurate: bool)
    requires |key| <= 520 && |hash| <= 520
    ensures SigOpCount(KeyScript(key), accurate) == 1
    ensures SigOpCount(KeyHashScript(hash), accurate) == 1
  {
    hide Parse, Count, ReadOp, IsSingle, Holds, Push, KeyScript, KeyHashScript;
    var script := KeyScript(key);
    KeyLayout(key);
    PushReads(key);
    OpReads(0xac);
    CountHeld(script, 0, Push(key), OP_INVALIDOPCODE, accurate);
    CountHeld(script, |Push(key)|, [0xac], ReadOp(Push(key)).value.code, accurate);
    CountEnds(script, 0xac, accurate);
    KeyHashCount(hash, accurate);
  }

  lemma KeyHashCount(hash: Bytes, accurate: bool)
    requires |hash| <= 520
    ensures SigOpCount(KeyHashScript(hash), accurate) == 1
  {
    hide Parse, Count, ReadOp, IsSingle, Push, KeyHashScript;
    var script, n := KeyHashScript(hash), 2 + |Push(hash)|;
    HoldsAll(script);
    hide Holds;
    KeyHashLayout(script, 0, hash);
    KeyHashSize(hash);
    PushReads(hash);
    OpReads(0x76);
    OpReads(0xa9);
    OpReads(0x88);
    OpReads(0xac);
    CountHeld(script, 0, [0x76], OP_INVALIDOPCODE, accurate);
    CountHeld(script, 1, [0xa9], 0x76, accurate);
    CountHeld(script, 2, Push(hash), 0xa9, accurate);
    CountHeld(script, n, [0x88], ReadOp(Push(hash)).value.code, accurate);
    CountHeld(script, n + 1, [0xac], 0x88, accurate);
    CountEnds(script, 0xac, accurate);
  }

  /** Behind a script hash, the keys of the multisignature script pushed last are counted. */
  lemma ScriptHashCounts(hash: Bytes, required: nat, keys: seq<Bytes>, values: seq<Bytes>)
    requires |hash| == 20 && required <= |keys| <= 16 && 0 < |keys| && Small(keys) && Small(values)
    requires |MultisigScript(required, keys)| <= 520
    ensures SigOpCountFor(ScriptHashScript(hash), Pushes(values + [MultisigScript(required, keys)])) == |keys|
  {
    hide Parse, Count, Push, Pushes, MultisigScript, ScriptHashScript, PushOnly, SigOpCount, Holds, IsPayToScriptHash;
    var redeem := MultisigScript(required, keys);
    var all := values + [redeem];
    var script := Pushes(all);
    ScriptHashForm(hash);
    assert Small(all);
    SmallIsShort(all);
    HoldsAll(script);
    PushesPushOnly(all, 0, script);
    PushesLast(all, 0, script);
    MultisigCount(required, keys);
  }

  /** Other payments count their own operations, accurately; a script hash whose spender does more than push counts nothing. */
  lemma OtherCounts(scriptPubKey: Bytes, scriptSig: Bytes)
    ensures
      var ops, sig := Parse(scriptPubKey, 0).ops, Parse(scriptSig, 0);
      && (!IsPayToScriptHash(scriptPubKey) ==> SigOpCountFor(scriptPubKey, scriptSig) == Charges(ops, |ops|, true))
      && (IsPayToScriptHash(scriptPubKey) && !(sig.complete && forall i :: 0 <= i < |sig.ops| ==> sig.ops[i].code < 0x61) ==>
            SigOpCountFor(scriptPubKey, scriptSig) == 0)
  {
    hide Parse, Charges, SigOpCount, PushOnly;
    CountIs(scriptPubKey, true);
    PushOnlyIff(scriptSig);
  }

  /** The last operation of a list of pushes holds the last value. */
  lemma {:induction false} PushesLast(values: seq<Bytes>, pc: nat, script: Bytes)
    requires Holds(script, pc, Pushes(values)) && pc + |Pushes(values)| == |script| && values != []
    requires forall i :: 0 <= i < |values| ==> |values[i]| < 0x1_0000_0000
    ensures LastData(Parse(script, pc).ops) == values[|values| - 1] && Parse(script, pc).ops != []
    decreases |values|
  {
    hide Parse, Push, ReadOp, IsSingle, Holds;
    var v, rest := values[0], values[1..];
    HoldsSplit(script, pc, Push(v), Pushes(rest));
    PushReads(v);
    ReadHeld(script, pc, Push(v));
    PushNotEmpty(v);
    SingleNext(Push(v));
    HeldInside(script, pc, Push(v));
    ParseStep(script, pc);
    var ops := Parse(script, pc).ops;
    if rest == [] {
      ParseEnd(script);
      assert ops == [ops[0]];
    } else {
      PushesLast(rest, pc + |Push(v)|, script);
      assert ops[|ops| - 1] == ops[1..][|ops| - 2];
    }
  }

  // ------------------------------------------------------------ the count is needed

  /** Checks pass only for one key. */
  function OnlyKey(key: Bytes): Env {
    Env((_, k, _) => k == key, _ => true, _ => true, _ => true, (_, _) => [], false, false, false, false)
  }

  lemma {:induction false} MatchAll(key: Bytes, code: Bytes, sig: Bytes, keys: seq<Bytes>)
    requires |keys| > 0 && keys[|keys| - 1] == key && forall i :: 0 <= i < |keys| - 1 ==> keys[i] != key
    ensures Match(OnlyKey(key), code, [sig], keys) == Verdict(Some(true), |keys|)
    decreases |keys|
  {
    var env := OnlyKey(key);
    if |keys| > 1 {
      assert keys[1..][|keys| - 2] == key;
      MatchAll(key, code, sig, keys[1..]);
    } else {
      assert [sig][1..] == [];
      assert Match(env, code, [], keys[1..]) == Verdict(Some(true), 0);
    }
  }

  /** One signature that checks for the first key alone makes the run check as often as the script counts. */
  lemma CountNeeded(keys: seq<Bytes>, sig: Bytes)
    requires 0 < |keys| <= 16 && Small(keys) && |MultisigScript(1, keys)| <= MAX_SCRIPT
    requires forall i :: 0 < i < |keys| ==> keys[i] != keys[0]
    ensures
      var script := MultisigScript(1, keys);
      Checks(Eval(OnlyKey(keys[0]), script, [[], sig])) == |keys| == SigOpCount(script, true)
  {
    hide Parse, Loop, Turn, ReadOp, IsSingle, Holds, Pushes, OpN, MultisigScript, CheckMultisigOp, Laid, SigOpCount, OnlyKey;
    var env, script := OnlyKey(keys[0]), MultisigScript(1, keys);
    MultisigCount(1, keys);
    MultisigLayout(1, keys);
    assert [] + [[]] + [sig] == [[], sig];
    MultisigOperandsPushed(env, keys, [], [], [sig]);
    var m := Start(Laid([], [], [sig], keys));
    MultisigOpReads();
    LoopHeld(env, script, |script| - 1, [OP_CHECKMULTISIG as Byte], m, []);
    TurnMultisig(env, script, |script|, m);
    AllTried(script, m.(counted := 1), keys, sig);
    var r := CheckMultisigOp(env, script, OP_CHECKMULTISIG, m.(counted := 1));
    ParseEnd(script);
    LoopEnds(env, script, true, r.m, []);
  }

  lemma AllTried(script: Bytes, m: Machine, keys: seq<Bytes>, sig: Bytes)
    requires 0 < |keys| <= 16 && m.stack == Laid([], [], [sig], keys) && m.counted == 1 && m.checks == 0 && m.alt == []
    requires forall i :: 0 < i < |keys| ==> keys[i] != keys[0]
    ensures
      var r := CheckMultisigOp(OnlyKey(keys[0]), script, OP_CHECKMULTISIG, m);
      r.Ok? && r.m.checks == |keys| && |r.m.stack| == 1 && r.m.alt == []
  {
    hide Laid, Match, SignedCode, MultisigOperands, Reverse;
    LaidOperands([], [], [sig], keys, 1);
    LaidEnds([], [], [sig], keys);
    assert Reverse([sig]) == [sig] by {
      ReverseAt([sig], 0);
    }
    var back := Reverse(keys);
    forall i | 0 <= i < |back| ensures back[i] == keys[|keys| - 1 - i] {
      ReverseAt(keys, i);
    }
    MatchAll(keys[0], SignedCode(script, m.codeStart, [sig]), sig, back);
  }
}
