/** Static signature-operation counts, and what they promise about a run (BIP 16, BIP 11). */
module SigOps {
  import opened Basics
  import opened ScriptCodec
  import opened ScriptNum
  import opened ScriptMachine
  import opened ScriptEval

  const OP_INVALIDOPCODE := 0xff

  predicate IsCheckSig(code: int) {
    code == OP_CHECKSIG || code == OP_CHECKSIGVERIFY
  }

  predicate IsCheckMultisig(code: int) {
    code == OP_CHECKMULTISIG || code == OP_CHECKMULTISIGVERIFY
  }

  predicate IsCount(code: int) {
    OP_1 <= code <= OP_16
  }

  /** `DecodeOP_N` on OP_1 to OP_16. */
  function CountOf(code: int): nat
    requires IsCount(code)
  {
    code - (OP_1 - 1)
  }

  function Cost(code: int, last: int, accurate: bool): nat {
    if IsCheckSig(code) then 1
    else if IsCheckMultisig(code) then (if accurate && IsCount(last) then CountOf(last) else MAX_KEYS)
    else 0
  }

  function Count(ops: seq<Instr>, last: int, accurate: bool): nat {
    if ops == [] then 0 else Cost(ops[0].code, last, accurate) + Count(ops[1..], ops[0].code, accurate)
  }

  function SigOpCount(script: Bytes, accurate: bool): nat {
    Count(Parse(script, 0).ops, OP_INVALIDOPCODE, accurate)
  }

  lemma CountStep(ops: seq<Instr>, last: int, accurate: bool)
    requires ops != []
    ensures Count(ops, last, accurate) == Cost(ops[0].code, last, accurate) + Count(ops[1..], ops[0].code, accurate)
  {
  }

  lemma CountNone(last: int, accurate: bool)
    ensures Count([], last, accurate) == 0
  {
  }

  lemma SigOpCountIs(script: Bytes, accurate: bool)
    ensures SigOpCount(script, accurate) == Count(Parse(script, 0).ops, OP_INVALIDOPCODE, accurate)
  {
  }

  /** `GetSigOpCount(fAccurate)`: walk the readable operations with the previous opcode at hand. */
  method GetSigOpCount(script: Bytes, accurate: bool) returns (n: nat)
    ensures n == SigOpCount(script, accurate)
  {
    hide *;
    n := 0;
    var pc, last := 0, OP_INVALIDOPCODE;
    SigOpCountIs(script, accurate);
    while pc < |script|
      invariant 0 <= pc <= |script|
      invariant n + Count(Parse(script, pc).ops, last, accurate) == SigOpCount(script, accurate)
    {
      ParseStep(script, pc);
      var op := ReadOp(script[pc..]);
      if op.None? {
        CountNone(last, accurate);
        return;
      }
      CountStep(Parse(script, pc).ops, last, accurate);
      n := n + Cost(op.value.code, last, accurate);
      last := op.value.code;
      pc := pc + op.value.next;
    }
    ParseEnd(script);
    CountNone(last, accurate);
  }

  // ------------------------------------------- the count bounds what a run does

  /** If the last operation pushed a small number and was executed, the number is on top. */
  predicate LastIsOnTop(last: int, m: Machine, flags: seq<bool>) {
    IsCount(last) && Executing(flags) ==> |m.stack| > 0 && Top(m.stack, 1) == Encode(CountOf(last))
  }

  lemma {:induction false} MatchChecks(env: Env, code: Bytes, sigs: seq<Bytes>, keys: seq<Bytes>)
    ensures Match(env, code, sigs, keys).checks <= |keys|
    decreases |keys|
  {
    hide Encoded, Verifies;
    if sigs != [] && |sigs| <= |keys| && !(env.strict && !Encoded(env, sigs[0], keys[0])) {
      MatchChecks(env, code, if Verifies(env, code, sigs[0], keys[0]) then sigs[1..] else sigs, keys[1..]);
    }
  }

  lemma MultisigChecks(env: Env, script: Bytes, code: int, m: Machine)
    ensures Checks(CheckMultisigOp(env, script, code, m)) <= m.checks + MAX_KEYS
    ensures |m.stack| > 0 && Decode(Top(m.stack, 1)) >= 0 ==>
              Checks(CheckMultisigOp(env, script, code, m)) <= m.checks + Decode(Top(m.stack, 1))
  {
    hide Match, SignedCode, Decode;
    var o := MultisigOperands(m.stack, m.counted);
    if o.Some? {
      MatchChecks(env, SignedCode(script, m.codeStart, o.value.sigs), o.value.sigs, o.value.keys);
    }
  }

  lemma ExecuteChecks(env: Env, script: Bytes, op: Instr, m: Machine)
    ensures !IsCheckMultisig(op.code) ==>
              Checks(Execute(env, script, op, m)) <= m.checks + if IsCheckSig(op.code) then 1 else 0
    ensures IsCheckMultisig(op.code) ==> Execute(env, script, op, m) == CheckMultisigOp(env, script, op.code, m)
  {
    hide CheckMultisigOp, SignedCode, Shuffle, Arithmetic, Encode;
  }

  /** One turn performs no more checks than its operation is charged for. */
  lemma TurnChecks(env: Env, script: Bytes, op: Instr, m: Machine, flags: seq<bool>, last: int)
    requires LastIsOnTop(last, m, flags)
    ensures
      var t := Turn(env, script, op, m, flags);
      (if t.Run? then t.m.checks else t.performed) <= m.checks + Cost(op.code, last, true)
  {
    hide Execute, CheckMultisigOp, Executing, Disabled, ToBool, Encode, Decode;
    var g := Guard(op, m);
    if g.Ok? {
      ExecuteChecks(env, script, op, g.m);
      MultisigChecks(env, script, op.code, g.m);
      if IsCount(last) {
        NumberRoundTrip(CountOf(last));
      }
    }
  }

  lemma TurnKeepsLast(env: Env, script: Bytes, op: Instr, m: Machine, flags: seq<bool>)
    ensures
      var t := Turn(env, script, op, m, flags);
      t.Run? ==> LastIsOnTop(op.code, t.m, t.flags)
  {
    hide Executing, Disabled, ToBool, Encode;
  }

  /** The bound along a whole run, from any point of it. */
  lemma {:induction false} LoopChecks(
    env: Env, script: Bytes, p: Program, m: Machine, flags: seq<bool>, last: int)
    requires LastIsOnTop(last, m, flags)
    ensures Checks(Loop(env, script, p, m, flags)) <= m.checks + Count(p.ops, last, true)
    decreases |p.ops|
  {
    hide Turn, LastIsOnTop, Cost;
    if p.ops != [] {
      var op := p.ops[0];
      TurnChecks(env, script, op, m, flags, last);
      TurnKeepsLast(env, script, op, m, flags);
      var t := Turn(env, script, op, m, flags);
      if t.Run? {
        LoopChecks(env, script, p.(ops := p.ops[1..]), t.m, t.flags, op.code);
      }
    }
  }

  lemma {:induction false} AccurateIsSmaller(ops: seq<Instr>, last: int)
    ensures Count(ops, last, true) <= Count(ops, last, false)
  {
    if ops != [] {
      AccurateIsSmaller(ops[1..], ops[0].code);
    }
  }

  /** Every run of a script, accepted or not, makes at most as many checks as are counted for it. */
  lemma EvalChecks(env: Env, script: Bytes, stack: Stack)
    ensures Checks(Eval(env, script, stack)) <= SigOpCount(script, true) <= SigOpCount(script, false)
  {
    hide Loop, Parse, Count;
    LoopChecks(env, script, Parse(script, 0), Start(stack), [], OP_INVALIDOPCODE);
    AccurateIsSmaller(Parse(script, 0).ops, OP_INVALIDOPCODE);
  }

  // ------------------------------------------------------- pay to script hash

  predicate IsPayToScriptHash(script: Bytes) {
    |script| == 23 && script[0] as int == OP_HASH160 && script[1] == 0x14 && script[22] as int == OP_EQUAL
  }

  predicate PushOnly(p: Program) {
    p.complete && forall i :: 0 <= i < |p.ops| ==> p.ops[i].code <= OP_16
  }

  /** `IsPushOnly`. */
  method IsPushOnly(script: Bytes) returns (r: bool)
    ensures r == PushOnly(Parse(script, 0))
  {
    hide ReadOp, Parse;
    var pc := 0;
    while pc < |script|
      invariant 0 <= pc <= |script| && PushOnly(Parse(script, pc)) == PushOnly(Parse(script, 0))
    {
      ParseStep(script, pc);
      var op := ReadOp(script[pc..]);
      if op.None? {
        return false;
      }
      PushOnlyStep(Parse(script, pc));
      if op.value.code > OP_16 {
        return false;
      }
      pc := pc + op.value.next;
    }
    ParseEnd(script);
    return true;
  }

  lemma PushOnlyStep(p: Program)
    requires p.ops != []
    ensures PushOnly(p) <==> p.ops[0].code <= OP_16 && PushOnly(p.(ops := p.ops[1..]))
  {
    if p.ops[0].code <= OP_16 && PushOnly(p.(ops := p.ops[1..])) {
      forall i | 0 <= i < |p.ops| ensures p.ops[i].code <= OP_16 {
        if i > 0 {
          assert p.ops[i] == p.ops[1..][i - 1];
        }
      }
    }
    if PushOnly(p) {
      forall i | 0 <= i < |p.ops| - 1 ensures p.ops[1..][i].code <= OP_16 {
        assert p.ops[1..][i] == p.ops[i + 1];
      }
    }
  }

  function LastData(ops: seq<Instr>): Bytes {
    if ops == [] then [] else ops[|ops| - 1].data
  }

  /** `GetSigOpCount(scriptSig)`: for a script hash, the count of the last pushed data. */
  function SigOpCountFor(scriptPubKey: Bytes, scriptSig: Bytes): nat {
    if !IsPayToScriptHash(scriptPubKey) then SigOpCount(scriptPubKey, true)
    else if !PushOnly(Parse(scriptSig, 0)) then 0
    else SigOpCount(LastData(Parse(scriptSig, 0).ops), true)
  }

  method GetSigOpCountFor(scriptPubKey: Bytes, scriptSig: Bytes) returns (n: nat)
    ensures n == SigOpCountFor(scriptPubKey, scriptSig)
  {
    hide ReadOp, Parse, SigOpCount;
    if !IsPayToScriptHash(scriptPubKey) {
      n := GetSigOpCount(scriptPubKey, true);
      return;
    }
    var pc, data: Bytes := 0, [];
    ghost var all := Parse(scriptSig, 0);
    ghost var seen := 0;
    while pc < |scriptSig|
      invariant 0 <= pc <= |scriptSig| && seen <= |all.ops|
      invariant Parse(scriptSig, pc) == Program(all.ops[seen..], all.complete)
      invariant PushOnly(Parse(scriptSig, pc)) == PushOnly(all)
      invariant data == LastData(all.ops[..seen])
    {
      ParseStep(scriptSig, pc);
      var op := ReadOp(scriptSig[pc..]);
      if op.None? {
        return 0;
      }
      PushOnlyStep(Parse(scriptSig, pc));
      data := op.value.data;
      if op.value.code > OP_16 {
        return 0;
      }
      pc, seen := pc + op.value.next, seen + 1;
    }
    ParseEnd(scriptSig);
    assert all.ops[..seen] == all.ops;
    n := GetSigOpCount(data, true);
  }

  /** What a push-only operation leaves on the stack. */
  function Pushed(op: Instr): Bytes {
    if op.code <= OP_PUSHDATA4 then op.data else Encode(op.code - (OP_1 - 1))
  }

  lemma TurnPush(env: Env, script: Bytes, op: Instr, m: Machine)
    requires 0 <= op.code <= OP_16
    ensures
      var t := Turn(env, script, op, m, []);
      t.Run? ==> t.flags == [] && t.m.stack == m.stack + [Pushed(op)] && (op.code <= OP_PUSHDATA4 || IsSmallInt(op.code))
  {
    hide Encode, Disabled;
    assert Executing([]);
  }

  lemma {:induction false} PushOnlyTop(env: Env, script: Bytes, p: Program, m: Machine)
    requires PushOnly(p) && p.ops != [] && Loop(env, script, p, m, []).Ok?
    requires forall i :: 0 <= i < |p.ops| ==> 0 <= p.ops[i].code
    ensures
      var s, last := Loop(env, script, p, m, []).m.stack, p.ops[|p.ops| - 1];
      s != [] && Top(s, 1) == Pushed(last) && (last.code <= OP_PUSHDATA4 || IsSmallInt(last.code))
    decreases |p.ops|
  {
    hide Turn, Pushed;
    TurnPush(env, script, p.ops[0], m);
    var t := Turn(env, script, p.ops[0], m, []);
    var rest := p.(ops := p.ops[1..]);
    if rest.ops == [] {
      LoopEnds(env, script, p.complete, t.m, []);
    } else {
      assert rest.ops[|rest.ops| - 1] == p.ops[|p.ops| - 1];
      PushOnlyTop(env, script, rest, t.m);
    }
  }

  lemma {:induction false} ParseCodes(script: Bytes, pc: nat)
    requires pc <= |script|
    ensures forall i :: 0 <= i < |Parse(script, pc).ops| ==> 0 <= Parse(script, pc).ops[i].code
    ensures forall i :: 0 <= i < |Parse(script, pc).ops| ==>
              Parse(script, pc).ops[i].code > OP_PUSHDATA4 ==> Parse(script, pc).ops[i].data == []
    decreases |script| - pc
  {
    if pc < |script| && ReadOp(script[pc..]).Some? {
      ReadOpNoData(script[pc..]);
      hide ReadOp;
      ParseCodes(script, pc + ReadOp(script[pc..]).value.next);
    }
  }

  lemma ReadOpNoData(s: Bytes)
    requires ReadOp(s).Some?
    ensures ReadOp(s).value.code > OP_PUSHDATA4 ==> ReadOp(s).value.data == []
  {
    hide LittleEndian;
  }

  lemma SmallEncoding(n: int)
    requires n == -1 || 1 <= n <= 16
    ensures Encode(n) == [if n < 0 then 0x81 else n as Byte]
  {
    var size := if n < 0 then -n else n;
    assert Digits(size) == [size as Byte] + Digits(0);
    assert Digits(size) == [size as Byte];
  }

  /** A small number, read as a script, holds no signature operation. */
  lemma SmallScriptCount(n: int)
    requires n == -1 || 1 <= n <= 16
    ensures SigOpCount(Encode(n), true) == 0 && SigOpCount([], true) == 0
  {
    hide Encode, Count;
    SmallEncoding(n);
    var b: Bytes := Encode(n);
    ParseEnd([]);
    CountNone(OP_INVALIDOPCODE, true);
    ParseStep(b, 0);
    assert b[0..] == b;
    if n < 0 {
      ParseEnd(b);
      var ops := Parse(b, 0).ops;
      CountStep(ops, OP_INVALIDOPCODE, true);
      CountNone(ops[0].code, true);
    }
  }

  /** Running the script pushed last makes at most as many checks as `GetSigOpCount(scriptSig)` says. */
  lemma RedeemChecks(env: Env, scriptPubKey: Bytes, scriptSig: Bytes, stack: Stack)
    requires IsPayToScriptHash(scriptPubKey) && PushOnly(Parse(scriptSig, 0))
    requires Eval(env, scriptSig, []).Ok? && Eval(env, scriptSig, []).m.stack != []
    ensures
      var redeem := Top(Eval(env, scriptSig, []).m.stack, 1);
      Checks(Eval(env, redeem, stack)) <= SigOpCountFor(scriptPubKey, scriptSig)
  {
    hide Parse, SigOpCount, Loop, Encode;
    var p := Parse(scriptSig, 0);
    if p.ops == [] {
      LoopEnds(env, scriptSig, p.complete, Start([]), []);
    }
    ParseCodes(scriptSig, 0);
    PushOnlyTop(env, scriptSig, p, Start([]));
    var last := p.ops[|p.ops| - 1];
    EvalChecks(env, Pushed(last), stack);
    if last.code > OP_PUSHDATA4 {
      SmallScriptCount(last.code - (OP_1 - 1));
    }
  }

  // -------------------------------------------------------------- VerifyScript

  datatype Verified = Verified(ok: bool, checks: nat)

  function Accepts(r: Result): bool {
    r.Ok? && r.m.stack != [] && ToBool(Top(r.m.stack, 1))
  }

  function Verify(env: Env, scriptSig: Bytes, scriptPubKey: Bytes): Verified {
    var first := Eval(env, scriptSig, []);
    if first.Fail? then Verified(false, Checks(first))
    else
      var second := Eval(env, scriptPubKey, first.m.stack);
      var checks := Checks(first) + Checks(second);
      if !Accepts(second) then Verified(false, checks)
      else if !IsPayToScriptHash(scriptPubKey) then Verified(true, checks)
      else if !PushOnly(Parse(scriptSig, 0)) || first.m.stack == [] then Verified(false, checks)
      else
        var third := Eval(env, Top(first.m.stack, 1), Drop(first.m.stack, 1));
        Verified(Accepts(third), checks + Checks(third))
  }

  /** `VerifyScript`: the copied stack is never empty when the script hash has been checked. */
  method VerifyScript(env: Env, scriptSig: Bytes, scriptPubKey: Bytes) returns (r: Verified)
    ensures r == Verify(env, scriptSig, scriptPubKey)
  {
    hide Eval, Parse, ToBool, IsPayToScriptHash;
    var first := EvalScript(env, scriptSig, []);
    if first.Fail? {
      return Verified(false, first.performed);
    }
    var copy := first.m.stack;
    var second := EvalScript(env, scriptPubKey, first.m.stack);
    var checks := Checks(first) + Checks(second);
    if second.Fail? || second.m.stack == [] {
      return Verified(false, checks);
    }
    var value := CastToBool(Top(second.m.stack, 1));
    if !value {
      return Verified(false, checks);
    }
    if IsPayToScriptHash(scriptPubKey) {
      var pushOnly := IsPushOnly(scriptSig);
      if !pushOnly {
        return Verified(false, checks);
      }
      ScriptHashNeedsArgument(env, scriptPubKey, copy);
      assert copy != [];
      var third := EvalScript(env, Top(copy, 1), Drop(copy, 1));
      checks := checks + Checks(third);
      if third.Fail? || third.m.stack == [] {
        return Verified(false, checks);
      }
      value := CastToBool(Top(third.m.stack, 1));
      return Verified(value, checks);
    }
    return Verified(true, checks);
  }

  lemma ScriptHashOps(script: Bytes)
    requires IsPayToScriptHash(script)
    ensures
      var ops := Parse(script, 0).ops;
      && |ops| == 3 && ops[0] == Instr(OP_HASH160, [], 1) && ops[1].code == 0x14
      && ops[2].code == OP_EQUAL && Parse(script, 0).complete
  {
    hide Parse, LittleEndian;
    ParseStep(script, 0);
    assert script[0..] == script;
    ParseStep(script, 1);
    assert script[1..][0] == script[1];
    ParseStep(script, 22);
    assert script[22..][0] == script[22];
    ParseEnd(script);
  }

  lemma ScriptHashNeedsArgument(env: Env, script: Bytes, stack: Stack)
    requires IsPayToScriptHash(script)
    ensures stack == [] ==> Eval(env, script, stack).Fail?
  {
    hide Parse, IsPayToScriptHash, Loop;
    ScriptHashOps(script);
    assert |script| == 23 by {
      ScriptHashSize(script);
    }
    assert Executing([]);
    LoopStep(env, script, Parse(script, 0), Start(stack), []);
  }

  lemma ScriptHashSize(script: Bytes)
    requires IsPayToScriptHash(script)
    ensures |script| == 23
  {
  }

  lemma ScriptHashCount(script: Bytes)
    requires IsPayToScriptHash(script)
    ensures SigOpCount(script, true) == 0
  {
    hide Parse, Count;
    ScriptHashOps(script);
    var ops := Parse(script, 0).ops;
    CountStep(ops, OP_INVALIDOPCODE, true);
    CountStep(ops[1..], ops[0].code, true);
    CountStep(ops[1..][1..], ops[1].code, true);
    assert ops[1..][1..][1..] == [];
    CountNone(ops[2].code, true);
  }

  /** All the checks of an input, redeem script included, are covered by the counts of its two scripts. */
  lemma VerifyChecks(env: Env, scriptSig: Bytes, scriptPubKey: Bytes)
    ensures Verify(env, scriptSig, scriptPubKey).checks
              <= SigOpCount(scriptSig, true) + SigOpCountFor(scriptPubKey, scriptSig)
  {
    hide Eval, Parse, SigOpCount, ToBool, PushOnly;
    var first := Eval(env, scriptSig, []);
    EvalChecks(env, scriptSig, []);
    if first.Ok? {
      EvalChecks(env, scriptPubKey, first.m.stack);
      if IsPayToScriptHash(scriptPubKey) {
        ScriptHashCount(scriptPubKey);
        if PushOnly(Parse(scriptSig, 0)) && first.m.stack != [] {
          RedeemChecks(env, scriptPubKey, scriptSig, Drop(first.m.stack, 1));
        }
      }
    }
  }
}
