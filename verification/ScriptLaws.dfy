/** Laws between operations: shuffles by two primitives, the VERIFY variants, the second stack. */
module ScriptLaws {
  import opened Basics
  import opened ScriptCodec
  import opened ScriptNum
  import opened ScriptMachine

  /** PICK and ROLL take their depth from the top of the stack: a number of at most four bytes that the rest is deeper than. */
  lemma PickAndRoll(s: Stack, v: Bytes)
    ensures
      var t, n := s + [v], Decode(v);
      var fits := |v| <= 4 && 0 <= n < |s|;
      && Shuffle(OP_PICK, t) == (if fits then Some(s + [s[|s| - 1 - n]]) else None)
      && Shuffle(OP_ROLL, t) == (if fits then Some(s[..|s| - 1 - n] + s[|s| - n..] + [s[|s| - 1 - n]]) else None)
  {
    hide Decode;
    var t := s + [v];
    assert Drop(t, 1) == s && Top(t, 1) == v;
  }

  lemma CopiesArePicks(s: Stack)
    ensures |s| >= 1 ==> Shuffle(OP_DUP, s) == Some(Pick(s, 0))
    ensures |s| >= 2 ==> Shuffle(OP_OVER, s) == Some(Pick(s, 1))
    ensures |s| >= 2 ==> Shuffle(OP_2DUP, s) == Some(Pick(Pick(s, 1), 1))
    ensures |s| >= 3 ==> Shuffle(OP_3DUP, s) == Some(Pick(Pick(Pick(s, 2), 2), 2))
    ensures |s| >= 4 ==> Shuffle(OP_2OVER, s) == Some(Pick(Pick(s, 3), 3))
  {
    if |s| >= 2 {
      assert Pick(Pick(s, 1), 1) == s + [Top(s, 2), Top(s, 1)];
    }
    if |s| >= 3 {
      assert Pick(Pick(Pick(s, 2), 2), 2) == s + [Top(s, 3), Top(s, 2), Top(s, 1)];
    }
    if |s| >= 4 {
      assert Pick(Pick(s, 3), 3) == s + [Top(s, 4), Top(s, 3)];
    }
  }

  lemma MovesAreRolls(s: Stack)
    ensures |s| >= 2 ==> Shuffle(OP_SWAP, s) == Some(Roll(s, 1))
    ensures |s| >= 3 ==> Shuffle(OP_ROT, s) == Some(Roll(s, 2))
    ensures |s| >= 4 ==> Shuffle(OP_2SWAP, s) == Some(Roll(Roll(s, 3), 3))
    ensures |s| >= 6 ==> Shuffle(OP_2ROT, s) == Some(Roll(Roll(s, 5), 5))
  {
    if |s| >= 2 {
      SwapIsRoll(s);
    }
    if |s| >= 3 {
      RotIsRoll(s);
    }
    if |s| >= 4 {
      TwoSwapIsRoll(s);
    }
    if |s| >= 6 {
      TwoRotIsRoll(s);
    }
  }

  lemma SwapIsRoll(s: Stack)
    requires |s| >= 2
    ensures Shuffle(OP_SWAP, s) == Some(Roll(s, 1))
  {
    assert s[|s| - 1..] == [Top(s, 1)];
    assert Drop(s, 2) + [Top(s, 1), Top(s, 2)] == Drop(s, 2) + [Top(s, 1)] + [Top(s, 2)];
  }

  lemma RotIsRoll(s: Stack)
    requires |s| >= 3
    ensures Shuffle(OP_ROT, s) == Some(Roll(s, 2))
  {
    assert s[|s| - 2..] == [Top(s, 2), Top(s, 1)];
    assert Drop(s, 3) + [Top(s, 2), Top(s, 1), Top(s, 3)] == Drop(s, 3) + [Top(s, 2), Top(s, 1)] + [Top(s, 3)];
  }

  /** Rolling twice moves a pair. */
  lemma RollTwice(s: Stack, k: nat)
    requires 0 < k < |s|
    ensures Roll(Roll(s, k), k) == Drop(s, k + 1) + s[|s| - (k - 1)..] + [Top(s, k + 1), Top(s, k)]
  {
    var a, x, y, b := Drop(s, k + 1), Top(s, k + 1), Top(s, k), s[|s| - (k - 1)..];
    assert s[|s| - k..] == [y] + b;
    var r := a + ([y] + b) + [x];
    assert Roll(s, k) == r;
    assert Drop(r, k + 1) == a && Top(r, k + 1) == y && r[|r| - k..] == b + [x];
    assert a + (b + [x]) + [y] == a + b + [x, y];
  }

  lemma TwoSwapIsRoll(s: Stack)
    requires |s| >= 4
    ensures Shuffle(OP_2SWAP, s) == Some(Roll(Roll(s, 3), 3))
  {
    hide Roll;
    RollTwice(s, 3);
    assert s[|s| - 2..] == [Top(s, 2), Top(s, 1)];
    assert Drop(s, 4) + [Top(s, 2), Top(s, 1)] + [Top(s, 4), Top(s, 3)]
        == Drop(s, 4) + [Top(s, 2), Top(s, 1), Top(s, 4), Top(s, 3)];
  }

  lemma TwoRotIsRoll(s: Stack)
    requires |s| >= 6
    ensures Shuffle(OP_2ROT, s) == Some(Roll(Roll(s, 5), 5))
  {
    hide Roll;
    RollTwice(s, 5);
  }

  lemma DropsAndTucks(s: Stack)
    requires |s| >= 2
    ensures Shuffle(OP_2DROP, s) == Some(Drop(Drop(s, 1), 1))
    ensures Shuffle(OP_NIP, s) == Some(Drop(Roll(s, 1), 1))
    ensures Shuffle(OP_TUCK, s) == Some(Pick(Roll(s, 1), 1))
  {
    hide Roll;
    SwapIsRoll(s);
    var r := Drop(s, 2) + [Top(s, 1), Top(s, 2)];
    assert Roll(s, 1) == r;
    assert Drop(Drop(s, 1), 1) == Drop(s, 2);
    assert Drop(r, 1) == Drop(s, 2) + [Top(s, 1)];
    assert Pick(r, 1) == Drop(s, 2) + [Top(s, 1), Top(s, 2), Top(s, 1)];
  }

  /** A list of moves: copy the element at a depth to the top, move it there, or drop the top. */
  datatype Step = Copy(depth: nat) | Lift(depth: nat) | Cut

  function DoStep(s: Stack, a: Step): Option<Stack> {
    match a
    case Copy(k) => if k < |s| then Some(Pick(s, k)) else None
    case Lift(k) => if k < |s| then Some(Roll(s, k)) else None
    case Cut => if |s| > 0 then Some(Drop(s, 1)) else None
  }

  function Do(s: Stack, steps: seq<Step>): Option<Stack>
    decreases |steps|
  {
    if steps == [] then Some(s)
    else
      var t := DoStep(s, steps[0]);
      if t.None? then None else Do(t.value, steps[1..])
  }

  /** What each shuffle that does not read the stack comes down to. */
  function StepsOf(code: int): Option<seq<Step>> {
    match code
    case OP_2DROP => Some([Cut, Cut])
    case OP_2DUP => Some([Copy(1), Copy(1)])
    case OP_3DUP => Some([Copy(2), Copy(2), Copy(2)])
    case OP_2OVER => Some([Copy(3), Copy(3)])
    case OP_2ROT => Some([Lift(5), Lift(5)])
    case OP_2SWAP => Some([Lift(3), Lift(3)])
    case OP_DROP => Some([Cut])
    case OP_DUP => Some([Copy(0)])
    case OP_NIP => Some([Lift(1), Cut])
    case OP_OVER => Some([Copy(1)])
    case OP_ROT => Some([Lift(2)])
    case OP_SWAP => Some([Lift(1)])
    case OP_TUCK => Some([Lift(1), Copy(1)])
    case _ => None
  }

  lemma DoOne(s: Stack, a: Step)
    ensures Do(s, [a]) == DoStep(s, a)
  {
    assert [a][1..] == [];
  }

  lemma DoTwo(s: Stack, a: Step, b: Step)
    ensures Do(s, [a]) == DoStep(s, a)
    ensures Do(s, [a, b]) == if DoStep(s, a).None? then None else DoStep(DoStep(s, a).value, b)
  {
    hide DoStep;
    assert [a][1..] == [] && [a, b][1..] == [b];
    if DoStep(s, a).Some? {
      DoOne(DoStep(s, a).value, b);
    }
  }

  lemma DoThree(s: Stack, a: Step, b: Step, c: Step)
    ensures Do(s, [a, b, c]) == if DoStep(s, a).None? then None else Do(DoStep(s, a).value, [b, c])
  {
    hide DoStep;
    assert [a, b, c][1..] == [b, c];
  }

  lemma Sizes(s: Stack, k: nat)
    requires k < |s|
    ensures |Pick(s, k)| == |s| + 1 && |Roll(s, k)| == |s|
  {
  }

  /** Every such shuffle is its list of moves: same result, and it fails on the same stacks. */
  lemma ShufflesAreMoves(code: int, s: Stack)
    requires StepsOf(code).Some?
    ensures IsShuffle(code) && Shuffle(code, s) == Do(s, StepsOf(code).value)
  {
    hide Do, Pick, Roll;
    CopiesArePicks(s);
    MovesAreRolls(s);
    if |s| >= 2 {
      DropsAndTucks(s);
    }
    var steps := StepsOf(code).value;
    var a, b := steps[0], if |steps| > 1 then steps[1] else Cut;
    DoTwo(s, a, b);
    if !a.Cut? && a.depth < |s| {
      Sizes(s, a.depth);
    }
    if |steps| == 3 {
      DoThree(s, a, b, steps[2]);
      if DoStep(s, a).Some? {
        var t := DoStep(s, a).value;
        DoTwo(t, b, steps[2]);
        Sizes(t, b.depth);
      }
    }
  }

  // ------------------------------------------------------------ VERIFY variants

  /** Execute VERIFY on what an operation leaves. */
  function ThenVerify(env: Env, script: Bytes, r: Result): Result {
    if r.Fail? then r else Execute(env, script, Instr(OP_VERIFY, [], 0), r.m)
  }

  lemma VerifyFlag(env: Env, script: Bytes, m: Machine, rest: Stack, b: bool)
    requires m.stack == rest + [Flag(b)]
    ensures Execute(env, script, Instr(OP_VERIFY, [], 0), m) == if b then Ok(m.(stack := rest)) else Fail(m.checks)
  {
    assert Top(m.stack, 1) == Flag(b) && Drop(m.stack, 1) == rest;
    assert ToBool(Flag(b)) == b by {
      if b {
        assert Flag(b)[0] == 1;
      }
    }
  }

  lemma EqualVerify(env: Env, script: Bytes, after: nat, m: Machine)
    ensures Execute(env, script, Instr(OP_EQUALVERIFY, [], after), m) ==
              ThenVerify(env, script, Execute(env, script, Instr(OP_EQUAL, [], after), m))
  {
    if |m.stack| >= 2 {
      var rest, same := Drop(m.stack, 2), Top(m.stack, 2) == Top(m.stack, 1);
      VerifyFlag(env, script, m.(stack := rest + [Flag(same)]), rest, same);
    }
  }

  lemma NumEqualResult(s: Stack)
    ensures
      var t := Arithmetic(OP_NUMEQUAL, s);
      && (t.Some? ==> t.value != [])
      && Arithmetic(OP_NUMEQUALVERIFY, s) == if t.Some? && ToBool(Top(t.value, 1)) then Some(Drop(t.value, 1)) else None
  {
    hide Encode, ToNumber, ToBool;
    if |s| >= 2 && ToNumber(Top(s, 2), 4).Some? && ToNumber(Top(s, 1), 4).Some? {
      var v := Encode(Binary(OP_NUMEQUAL, ToNumber(Top(s, 2), 4).value, ToNumber(Top(s, 1), 4).value));
      var t := Drop(s, 2) + [v];
      assert Top(t, 1) == v && Drop(t, 1) == Drop(s, 2);
    }
  }

  lemma NumEqualVerify(env: Env, script: Bytes, after: nat, m: Machine)
    ensures Execute(env, script, Instr(OP_NUMEQUALVERIFY, [], after), m) ==
              ThenVerify(env, script, Execute(env, script, Instr(OP_NUMEQUAL, [], after), m))
  {
    hide Arithmetic, ToBool, Top, Drop;
    NumEqualResult(m.stack);
  }

  lemma CheckSigVerify(env: Env, script: Bytes, after: nat, m: Machine)
    ensures Execute(env, script, Instr(OP_CHECKSIGVERIFY, [], after), m) ==
              ThenVerify(env, script, Execute(env, script, Instr(OP_CHECKSIG, [], after), m))
  {
    hide SignedCode, Encoded, Verifies;
    var r := CheckSigOp(env, script, OP_CHECKSIG, m);
    if r.Ok? {
      var sig, key := Top(m.stack, 2), Top(m.stack, 1);
      var ok := Verifies(env, SignedCode(script, m.codeStart, [sig]), sig, key);
      VerifyFlag(env, script, r.m, Drop(m.stack, 2), ok);
    }
  }

  lemma MultisigForms(env: Env, script: Bytes, m: Machine) returns (rest: Stack, b: bool)
    ensures
      var r, v := CheckMultisigOp(env, script, OP_CHECKMULTISIG, m), CheckMultisigOp(env, script, OP_CHECKMULTISIGVERIFY, m);
      if r.Fail? then v == r
      else r.m.stack == rest + [Flag(b)] && v == if b then Ok(r.m.(stack := rest)) else Fail(r.m.checks)
  {
    hide SignedCode, Match, MultisigOperands, Flag;
    rest, b := [], false;
    var o := MultisigOperands(m.stack, m.counted);
    if o.Some? {
      var v := Match(env, SignedCode(script, m.codeStart, o.value.sigs), o.value.sigs, o.value.keys);
      if v.outcome.Some? {
        rest, b := Drop(m.stack, o.value.used), v.outcome.value;
      }
    }
  }

  lemma CheckMultisigVerify(env: Env, script: Bytes, after: nat, m: Machine)
    ensures Execute(env, script, Instr(OP_CHECKMULTISIGVERIFY, [], after), m) ==
              ThenVerify(env, script, Execute(env, script, Instr(OP_CHECKMULTISIG, [], after), m))
  {
    hide Execute, CheckMultisigOp, Flag;
    var rest, b := MultisigForms(env, script, m);
    var r := CheckMultisigOp(env, script, OP_CHECKMULTISIG, m);
    MultisigExecuted(env, script, after, m);
    if r.Ok? {
      VerifyFlag(env, script, r.m, rest, b);
    }
  }

  lemma MultisigExecuted(env: Env, script: Bytes, after: nat, m: Machine)
    ensures Execute(env, script, Instr(OP_CHECKMULTISIG, [], after), m) == CheckMultisigOp(env, script, OP_CHECKMULTISIG, m)
    ensures Execute(env, script, Instr(OP_CHECKMULTISIGVERIFY, [], after), m) ==
              CheckMultisigOp(env, script, OP_CHECKMULTISIGVERIFY, m)
  {
    hide CheckMultisigOp;
  }

  /** The operation a VERIFY variant stands for. */
  function Plain(code: int): Option<int> {
    match code
    case OP_EQUALVERIFY => Some(OP_EQUAL)
    case OP_NUMEQUALVERIFY => Some(OP_NUMEQUAL)
    case OP_CHECKSIGVERIFY => Some(OP_CHECKSIG)
    case OP_CHECKMULTISIGVERIFY => Some(OP_CHECKMULTISIG)
    case _ => None
  }

  /** Every VERIFY variant is its plain operation followed by VERIFY, on every machine, check counts included. */
  lemma VerifyVariants(env: Env, script: Bytes, code: int, after: nat, m: Machine)
    requires Plain(code).Some?
    ensures Execute(env, script, Instr(code, [], after), m) ==
              ThenVerify(env, script, Execute(env, script, Instr(Plain(code).value, [], after), m))
  {
    hide Execute, ThenVerify;
    EqualVerify(env, script, after, m);
    NumEqualVerify(env, script, after, m);
    CheckSigVerify(env, script, after, m);
    CheckMultisigVerify(env, script, after, m);
  }

  // -------------------------------------------------------- what acceptance tells

  const OP_VERIF := 0x65
  const OP_VERNOTIF := 0x66

  /** Operations that end a script wherever they stand, executed or skipped, are not among these. */
  predicate Legal(op: Instr) {
    |op.data| <= MAX_ELEMENT && !Disabled(op.code) && op.code != OP_VERIF && op.code != OP_VERNOTIF
  }

  /** The operations that are counted. */
  function Heavy(ops: seq<Instr>): nat {
    if ops == [] then 0 else (if ops[0].code > OP_16 then 1 else 0) + Heavy(ops[1..])
  }

  lemma ExecuteCounts(env: Env, script: Bytes, op: Instr, m: Machine)
    ensures Execute(env, script, op, m).Ok? ==>
              && Execute(env, script, op, m).m.counted >= m.counted
              && op.code != OP_VERIF && op.code != OP_VERNOTIF
  {
    hide SignedCode, Match, Shuffle, Arithmetic, Encode, MultisigOperands, ToBool;
  }

  lemma TurnLegal(env: Env, script: Bytes, op: Instr, m: Machine, flags: seq<bool>)
    ensures
      var t := Turn(env, script, op, m, flags);
      t.Run? ==>
        && Legal(op) && |t.m.stack| + |t.m.alt| <= MAX_STACK
        && t.m.counted >= m.counted + (if op.code > OP_16 then 1 else 0)
        && (op.code > OP_16 ==> m.counted < MAX_OPS)
  {
    hide Execute, Executing, Disabled, ToBool;
    var g := Guard(op, m);
    if g.Ok? {
      ExecuteCounts(env, script, op, g.m);
    }
  }

  /** An accepted script holds no forbidden operation, not even in skipped code, and keeps all limits. */
  lemma {:induction false} AcceptedWithinLimits(env: Env, script: Bytes, p: Program, m: Machine, flags: seq<bool>)
    requires Loop(env, script, p, m, flags).Ok?
    ensures forall i :: 0 <= i < |p.ops| ==> Legal(p.ops[i])
    ensures Heavy(p.ops) > 0 ==> m.counted + Heavy(p.ops) <= MAX_OPS
    ensures
      var r := Loop(env, script, p, m, flags).m;
      p.ops != [] ==> |r.stack| + |r.alt| <= MAX_STACK
    decreases |p.ops|
  {
    hide Turn, Legal;
    if p.ops != [] {
      var t := Turn(env, script, p.ops[0], m, flags);
      TurnLegal(env, script, p.ops[0], m, flags);
      var rest := p.(ops := p.ops[1..]);
      AcceptedWithinLimits(env, script, rest, t.m, t.flags);
      forall i | 0 <= i < |p.ops| ensures Legal(p.ops[i]) {
        if i > 0 {
          assert p.ops[i] == rest.ops[i - 1];
        }
      }
    }
  }
}
