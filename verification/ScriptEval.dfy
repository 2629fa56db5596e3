/** `EvalScript` as it runs, with the loops of its signature operations, against the machine's definition. */
module ScriptEval {
  import opened Basics
  import opened ScriptCodec
  import opened ScriptNum
  import opened ScriptMachine

  lemma PushNotEmpty(v: Bytes)
    ensures Push(v) != []
  {
  }

  lemma EraseAllSplit(code: Bytes, sigs: seq<Bytes>, k: nat)
    requires k < |sigs|
    ensures EraseAll(code, sigs[k..]) == EraseAll(Erase(code, Push(sigs[k])), sigs[k + 1..])
  {
    hide Erase, Push;
    assert sigs[k..][1..] == sigs[k + 1..];
  }

  /** Drop the signatures from the code they sign, one after the other. */
  method DropSignatures(script: Bytes, start: nat, sigs: seq<Bytes>) returns (code: Bytes)
    requires start <= |script|
    ensures code == SignedCode(script, start, sigs)
  {
    hide *;
    code := script[start..];
    assert code == script[start..];
    ghost var all := EraseAll(code, sigs);
    assert all == SignedCode(script, start, sigs) by {
      SignedAll(script, start, sigs);
    }
    assert sigs[0..] == sigs;
    for k := 0 to |sigs|
      invariant EraseAll(code, sigs[k..]) == all
    {
      EraseAllSplit(code, sigs, k);
      PushNotEmpty(sigs[k]);
      var found;
      code, found := FindAndDelete(code, Push(sigs[k]));
    }
    assert sigs[|sigs|..] == [];
    EraseAllNone(code);
  }

  lemma EraseAllNone(code: Bytes)
    ensures EraseAll(code, []) == code
  {
  }

  lemma SignedAll(script: Bytes, start: nat, sigs: seq<Bytes>)
    requires start <= |script|
    ensures SignedCode(script, start, sigs) == EraseAll(script[start..], sigs)
  {
  }

  // ------------------------------------------------------------ CHECKMULTISIG

  lemma DownStep(s: Stack, k: nat, n: nat)
    requires 1 <= k && 0 < n && k + n <= |s| + 1
    ensures Down(s, k, n)[0] == Top(s, k) && Down(s, k, n)[1..] == Down(s, k + 1, n - 1)
  {
  }

  /** One step of the matching loop in terms of the operands left. */
  lemma MatchStep(env: Env, code: Bytes, sigs: seq<Bytes>, keys: seq<Bytes>)
    requires 0 < |sigs| <= |keys|
    ensures env.strict && !Encoded(env, sigs[0], keys[0]) ==> Match(env, code, sigs, keys) == Verdict(None, 0)
    ensures !(env.strict && !Encoded(env, sigs[0], keys[0])) ==>
              var v := Match(env, code, if Verifies(env, code, sigs[0], keys[0]) then sigs[1..] else sigs, keys[1..]);
              Match(env, code, sigs, keys) == v.(checks := v.checks + if Encoded(env, sigs[0], keys[0]) then 1 else 0)
  {
  }

  lemma MatchEnds(env: Env, code: Bytes, sigs: seq<Bytes>, keys: seq<Bytes>)
    ensures sigs == [] ==> Match(env, code, sigs, keys) == Verdict(Some(true), 0)
    ensures |sigs| > |keys| ==> Match(env, code, sigs, keys) == Verdict(Some(false), 0)
  {
  }

  /** The matching loop: both cursors run down the stack. */
  method MatchLoop(env: Env, code: Bytes, stack: Stack, isig0: nat, nSigs0: nat, ikey0: nat, nKeys0: nat)
    returns (v: Verdict)
    requires 1 <= isig0 && isig0 + nSigs0 <= |stack| + 1 && 1 <= ikey0 && ikey0 + nKeys0 <= |stack| + 1
    requires nSigs0 <= nKeys0
    ensures v == Match(env, code, Down(stack, isig0, nSigs0), Down(stack, ikey0, nKeys0))
  {
    hide Match, Down, Encoded, Verifies, Top;
    var isig: nat, nSigs: nat, ikey: nat, nKeys: nat := isig0, nSigs0, ikey0, nKeys0;
    var success, checks := true, 0;
    while success && nSigs > 0
      invariant 1 <= isig && isig + nSigs <= |stack| + 1 && 1 <= ikey && ikey + nKeys <= |stack| + 1
      invariant success <==> nSigs <= nKeys
      invariant
        var w := Match(env, code, Down(stack, isig, nSigs), Down(stack, ikey, nKeys));
        Match(env, code, Down(stack, isig0, nSigs0), Down(stack, ikey0, nKeys0)) == w.(checks := w.checks + checks)
      decreases nKeys
    {
      var sig, key := Top(stack, isig), Top(stack, ikey);
      DownStep(stack, isig, nSigs);
      DownStep(stack, ikey, nKeys);
      MatchStep(env, code, Down(stack, isig, nSigs), Down(stack, ikey, nKeys));
      if env.strict && !Encoded(env, sig, key) {
        return Verdict(None, checks);
      }
      if Encoded(env, sig, key) {
        checks := checks + 1;
      }
      if Verifies(env, code, sig, key) {
        isig, nSigs := isig + 1, nSigs - 1;
      }
      ikey, nKeys := ikey + 1, nKeys - 1;
      if nSigs > nKeys {
        success := false;
      }
    }
    MatchEnds(env, code, Down(stack, isig, nSigs), Down(stack, ikey, nKeys));
    v := Verdict(Some(success), checks);
  }

  /** The operands as the source reads them off the stack. */
  method CheckMultisig(env: Env, script: Bytes, code: int, m: Machine) returns (r: Result)
    requires m.codeStart <= |script|
    ensures r == CheckMultisigOp(env, script, code, m)
  {
    hide Match, SignedCode, Down, ToNumber, Flag;
    var s := m.stack;
    if |s| < 1 {
      return Fail(m.checks);
    }
    var n := ToNumber(Top(s, 1), 4);
    if n.None? || n.value < 0 || n.value > MAX_KEYS {
      return Fail(m.checks);
    }
    var nKeys := n.value;
    var counted := m.counted + nKeys;
    if counted > MAX_OPS || |s| < nKeys + 2 {
      return Fail(m.checks);
    }
    var k := ToNumber(Top(s, nKeys + 2), 4);
    if k.None? || k.value < 0 || k.value > nKeys || |s| < nKeys + k.value + 3 {
      return Fail(m.checks);
    }
    var nSigs := k.value;
    var signed := DropSignatures(script, m.codeStart, Down(s, nKeys + 3, nSigs));
    var v := MatchLoop(env, signed, s, nKeys + 3, nSigs, 2, nKeys);
    var checks := m.checks + v.checks;
    if v.outcome.None? {
      return Fail(checks);
    }
    // the operands come off first, then the extra element
    var rest := s[..|s| - (nKeys + nSigs + 2)];
    if env.nullDummy && rest[|rest| - 1] != [] {
      return Fail(checks);
    }
    rest := rest[..|rest| - 1];
    assert rest == Drop(s, nKeys + nSigs + 3);
    var m' := m.(counted := counted, checks := checks);
    if code == OP_CHECKMULTISIG {
      r := Ok(m'.(stack := rest + [Flag(v.outcome.value)]));
    } else if v.outcome.value {
      r := Ok(m'.(stack := rest));
    } else {
      r := Fail(checks);
    }
  }

  method CheckSig(env: Env, script: Bytes, code: int, m: Machine) returns (r: Result)
    requires m.codeStart <= |script|
    ensures r == CheckSigOp(env, script, code, m)
  {
    hide SignedCode;
    if |m.stack| < 2 {
      return Fail(m.checks);
    }
    var sig, key := Top(m.stack, 2), Top(m.stack, 1);
    var signed := DropSignatures(script, m.codeStart, [sig]);
    var encoded := env.sigOk(sig) && env.keyOk(key);
    if env.strict && !encoded {
      return Fail(m.checks);
    }
    var success, checks := false, m.checks;
    if encoded {
      checks := checks + 1;
      success := env.checkSig(sig, key, signed);
    }
    var rest := Drop(m.stack, 2);
    if code == OP_CHECKSIG {
      r := Ok(m.(stack := rest + [Flag(success)], checks := checks));
    } else if success {
      r := Ok(m.(stack := rest, checks := checks));
    } else {
      r := Fail(checks);
    }
  }

  // ----------------------------------------------------------------- the loop

  /** The switch of `EvalScript`. */
  method Switch(env: Env, script: Bytes, op: Instr, m: Machine) returns (r: Result)
    requires m.codeStart <= |script|
    ensures r == Execute(env, script, op, m)
  {
    hide CheckSigOp, CheckMultisigOp, Shuffle, Arithmetic, LockTimeOp, Encode;
    if op.code == OP_CHECKSIG || op.code == OP_CHECKSIGVERIFY {
      r := CheckSig(env, script, op.code, m);
    } else if op.code == OP_CHECKMULTISIG || op.code == OP_CHECKMULTISIGVERIFY {
      r := CheckMultisig(env, script, op.code, m);
    } else {
      r := Execute(env, script, op, m);
    }
  }

  lemma CodeStartKept(env: Env, script: Bytes, op: Instr, m: Machine)
    requires m.codeStart <= |script| && op.after <= |script|
    ensures Execute(env, script, op, m).Ok? ==> Execute(env, script, op, m).m.codeStart <= |script|
  {
    hide Match, SignedCode, MultisigOperands, Shuffle, Arithmetic, Encode;
  }

  lemma ParseStep(script: Bytes, pc: nat)
    requires pc < |script|
    ensures
      var op := ReadOp(script[pc..]);
      && (op.None? ==> Parse(script, pc) == Program([], false))
      && (op.Some? ==>
            var after := pc + op.value.next;
            && after <= |script|
            && Parse(script, pc).ops != []
            && Parse(script, pc).ops[0] == Instr(op.value.code, op.value.data, after)
            && Parse(script, pc).(ops := Parse(script, pc).ops[1..]) == Parse(script, after))
  {
    hide ReadOp;
  }

  lemma LoopStep(env: Env, script: Bytes, p: Program, m: Machine, flags: seq<bool>)
    requires p.ops != []
    ensures
      var t := Turn(env, script, p.ops[0], m, flags);
      Loop(env, script, p, m, flags) ==
        if t.Stop? then Fail(t.performed) else Loop(env, script, p.(ops := p.ops[1..]), t.m, t.flags)
  {
    hide Turn;
  }

  lemma LoopEnds(env: Env, script: Bytes, complete: bool, m: Machine, flags: seq<bool>)
    ensures Loop(env, script, Program([], complete), m, flags) == if complete && flags == [] then Ok(m) else Fail(m.checks)
  {
    hide Turn;
  }

  method IsExecuting(flags: seq<bool>) returns (r: bool)
    ensures r == Executing(flags)
  {
    var missing := 0;
    for i := 0 to |flags|
      invariant missing == 0 <==> false !in flags[..i]
    {
      if !flags[i] {
        missing := missing + 1;
      }
    }
    assert flags[..|flags|] == flags;
    return missing == 0;
  }

  /** One pass through the loop, as the source writes it. */
  method OneTurn(env: Env, script: Bytes, op: Instr, m0: Machine, flags0: seq<bool>) returns (t: Turned)
    requires m0.codeStart <= |script| && op.after <= |script|
    ensures t == Turn(env, script, op, m0, flags0)
    ensures t.Run? ==> t.m.codeStart <= |script|
  {
    hide Execute, ToBool, Executing, Disabled;
    var m, flags := m0, flags0;
    var exec := IsExecuting(flags);
    if |op.data| > MAX_ELEMENT {
      return Stop(m.checks);
    }
    if op.code > OP_16 {
      m := m.(counted := m.counted + 1);
      if m.counted > MAX_OPS {
        return Stop(m.checks);
      }
    }
    if Disabled(op.code) {
      return Stop(m.checks);
    }
    if exec && 0 <= op.code <= OP_PUSHDATA4 {
      m := m.(stack := m.stack + [op.data]);
    } else if exec || OP_IF <= op.code <= OP_ENDIF {
      if op.code == OP_IF || op.code == OP_NOTIF {
        var value := false;
        if exec {
          if |m.stack| < 1 {
            return Stop(m.checks);
          }
          value := CastToBool(Top(m.stack, 1));
          if op.code == OP_NOTIF {
            value := !value;
          }
          m := m.(stack := Drop(m.stack, 1));
        }
        flags := flags + [value];
      } else if op.code == OP_ELSE {
        if flags == [] {
          return Stop(m.checks);
        }
        flags := flags[..|flags| - 1] + [!flags[|flags| - 1]];
      } else if op.code == OP_ENDIF {
        if flags == [] {
          return Stop(m.checks);
        }
        flags := flags[..|flags| - 1];
      } else {
        CodeStartKept(env, script, op, m);
        var r := Switch(env, script, op, m);
        if r.Fail? {
          return Stop(r.performed);
        }
        m := r.m;
      }
    }
    if |m.stack| + |m.alt| > MAX_STACK {
      return Stop(m.checks);
    }
    t := Run(m, flags);
  }

  /** `EvalScript`: the loop over the bytes of the script is the machine run over its operations. */
  method EvalScript(env: Env, script: Bytes, stack: Stack) returns (r: Result)
    ensures r == Eval(env, script, stack)
  {
    hide *;
    EvalIs(env, script, stack);
    if |script| > MAX_SCRIPT {
      return Fail(0);
    }
    var pc, m, flags: seq<bool> := 0, Machine(stack, [], 0, 0, 0), [];
    while pc < |script|
      invariant 0 <= pc <= |script| && m.codeStart <= |script|
      invariant Loop(env, script, Parse(script, pc), m, flags) == Eval(env, script, stack)
    {
      ParseStep(script, pc);
      var op := ReadOp(script[pc..]);
      if op.None? {
        LoopEnds(env, script, false, m, flags);
        return Fail(m.checks);
      }
      LoopStep(env, script, Parse(script, pc), m, flags);
      pc := pc + op.value.next;
      var t := OneTurn(env, script, Instr(op.value.code, op.value.data, pc), m, flags);
      if t.Stop? {
        return Fail(t.performed);
      }
      m, flags := t.m, t.flags;
    }
    ParseEnd(script);
    LoopEnds(env, script, true, m, flags);
    r := if flags == [] then Ok(m) else Fail(m.checks);
  }

  lemma EvalIs(env: Env, script: Bytes, stack: Stack)
    ensures Eval(env, script, stack) ==
              if |script| > MAX_SCRIPT then Fail(0)
              else Loop(env, script, Parse(script, 0), Machine(stack, [], 0, 0, 0), [])
  {
    hide Loop, Parse;
  }

  lemma ParseEnd(script: Bytes)
    ensures Parse(script, |script|) == Program([], true)
  {
  }
}
