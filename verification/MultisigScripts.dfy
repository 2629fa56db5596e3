/** Scripts that push values and multisignature scripts, run on the machine. */
module MultisigScripts {
  import opened Basics
  import opened ScriptCodec
  import opened ScriptNum
  import opened ScriptMachine
  import opened ScriptEval
  import opened Multisig

  // --------------------------------------------------------- running known bytes

  /** The bytes `b` are found at `pc`. */
  predicate Holds(script: Bytes, pc: nat, b: Bytes) {
    pc + |b| <= |script| && script[pc..pc + |b|] == b
  }

  lemma ReadHeld(script: Bytes, pc: nat, b: Bytes)
    requires Holds(script, pc, b) && IsSingle(b)
    ensures ReadOp(script[pc..]) == ReadOp(b)
  {
    hide ReadOp;
    assert script[pc..] == b + script[pc + |b|..];
    ReadOpPrefix(b, script[pc + |b|..]);
  }

  lemma LoopHeld(env: Env, script: Bytes, pc: nat, b: Bytes, m: Machine, flags: seq<bool>)
    requires Holds(script, pc, b) && IsSingle(b)
    ensures
      var op := ReadOp(b).value;
      var t := Turn(env, script, Instr(op.code, op.data, pc + |b|), m, flags);
      Loop(env, script, Parse(script, pc), m, flags) ==
        if t.Stop? then Fail(t.performed) else Loop(env, script, Parse(script, pc + |b|), t.m, t.flags)
  {
    hide ReadOp, Parse, Loop, Turn;
    ReadHeld(script, pc, b);
    assert b != [] by {
      NothingIsSingle();
    }
    ParseStep(script, pc);
    LoopStep(env, script, Parse(script, pc), m, flags);
  }

  lemma HoldsSplit(script: Bytes, pc: nat, a: Bytes, b: Bytes)
    requires Holds(script, pc, a + b)
    ensures Holds(script, pc, a) && Holds(script, pc + |a|, b)
  {
    assert script[pc..pc + |a|] == (a + b)[..|a|];
    assert script[pc + |a|..pc + |a| + |b|] == (a + b)[|a|..];
  }

  // ------------------------------------------------------------------- PushAll

  function Pushes(values: seq<Bytes>): Bytes {
    if values == [] then [] else Push(values[0]) + Pushes(values[1..])
  }

  lemma {:induction false} PushesAppend(values: seq<Bytes>, v: Bytes)
    ensures Pushes(values + [v]) == Pushes(values) + Push(v)
  {
    hide Push;
    if values == [] {
      assert Pushes([v]) == Push(v) + Pushes([v][1..]);
    } else {
      PushesAppend(values[1..], v);
      assert (values + [v])[1..] == values[1..] + [v];
      Assoc(Push(values[0]), Pushes(values[1..]), Push(v));
    }
  }

  /** `PushAll`. */
  method PushAll(values: seq<Bytes>) returns (script: Bytes)
    ensures script == Pushes(values)
  {
    hide Push;
    script := [];
    for i := 0 to |values|
      invariant script == Pushes(values[..i])
    {
      assert values[..i + 1] == values[..i] + [values[i]];
      PushesAppend(values[..i], values[i]);
      script := script + Push(values[i]);
    }
    assert values[..|values|] == values;
  }

  predicate Small(values: seq<Bytes>) {
    forall i :: 0 <= i < |values| ==> |values[i]| <= MAX_ELEMENT
  }

  lemma TurnPushed(env: Env, script: Bytes, op: Instr, m: Machine)
    requires 0 <= op.code <= OP_PUSHDATA4
    ensures Turn(env, script, op, m, []) ==
              if |op.data| > MAX_ELEMENT || |m.stack| + |m.alt| + 1 > MAX_STACK then Stop(m.checks)
              else Run(m.(stack := m.stack + [op.data]), [])
  {
    hide Execute;
    assert Executing([]);
  }

  /** Running pushes appends their values, unless one is too long or there are too many. */
  lemma {:induction false} PushesRun(env: Env, script: Bytes, pc: nat, values: seq<Bytes>, m: Machine)
    requires Holds(script, pc, Pushes(values)) && forall i :: 0 <= i < |values| ==> |values[i]| < 0x1_0000_0000
    ensures
      var r := Loop(env, script, Parse(script, pc), m, []);
      if values == [] || (Small(values) && |m.stack| + |m.alt| + |values| <= MAX_STACK) then
        r == Loop(env, script, Parse(script, pc + |Pushes(values)|), m.(stack := m.stack + values), [])
      else r.Fail?
    decreases |values|
  {
    hide Parse, Loop, Turn, Push, ReadOp, IsSingle, Holds;
    if values == [] {
      assert m.stack + [] == m.stack;
    } else {
      var v, rest := values[0], values[1..];
      HoldsSplit(script, pc, Push(v), Pushes(rest));
      PushReads(v);
      LoopHeld(env, script, pc, Push(v), m, []);
      TurnPushed(env, script, Instr(ReadOp(Push(v)).value.code, v, pc + |Push(v)|), m);
      SmallStep(values);
      var m' := m.(stack := m.stack + [v]);
      PushesRun(env, script, pc + |Push(v)|, rest, m');
      assert m.stack + values == m'.stack + rest;
    }
  }

  lemma SmallStep(values: seq<Bytes>)
    requires values != []
    ensures Small(values) <==> |values[0]| <= MAX_ELEMENT && Small(values[1..])
  {
    if |values[0]| <= MAX_ELEMENT && Small(values[1..]) {
      forall i | 0 <= i < |values| ensures |values[i]| <= MAX_ELEMENT {
        if i > 0 {
          assert values[i] == values[1..][i - 1];
        }
      }
    }
  }

  lemma SmallBlank(sigs: seq<Bytes>)
    requires Small(sigs)
    ensures Small([[]] + sigs)
  {
  }

  lemma PushReads(v: Bytes)
    requires |v| < 0x1_0000_0000
    ensures IsSingle(Push(v)) && ReadOp(Push(v)).Some?
    ensures ReadOp(Push(v)).value.data == v && 0 <= ReadOp(Push(v)).value.code <= OP_PUSHDATA4
  {
    hide ReadOp, Push;
    PushRoundTrip(v, []);
    assert Push(v) + [] == Push(v);
  }

  lemma PushLonger(v: Bytes)
    ensures |Push(v)| > |v|
  {
  }

  lemma {:induction false} PushesLong(values: seq<Bytes>, i: nat)
    requires i < |values|
    ensures |Pushes(values)| > |values[i]|
    decreases |values|
  {
    hide Push;
    PushLonger(values[0]);
    if i > 0 {
      PushesLong(values[1..], i - 1);
    }
  }

  /** Evaluating `PushAll(values)` appends exactly `values`; it fails exactly beyond the size limits. */
  lemma PushAllEvaluates(env: Env, values: seq<Bytes>, stack: Stack)
    ensures
      var short := forall i :: 0 <= i < |values| ==> |values[i]| <= 520;
      var fits := |Pushes(values)| <= 10000 && (values == [] || (short && |stack| + |values| <= 1000));
      if fits then Eval(env, Pushes(values), stack) == Ok(Start(stack + values))
      else Eval(env, Pushes(values), stack).Fail?
  {
    hide Parse, Loop, Pushes;
    var script := Pushes(values);
    if |script| <= MAX_SCRIPT {
      forall i | 0 <= i < |values| ensures |values[i]| < 0x1_0000_0000 {
        PushesLong(values, i);
      }
      assert Holds(script, 0, script);
      PushesRun(env, script, 0, values, Start(stack));
      ParseEnd(script);
      LoopEnds(env, script, true, Start(stack + values), []);
    }
  }

  // -------------------------------------------------------- multisignature scripts

  /** `EncodeOP_N`. */
  function OpN(n: nat): Byte
    requires n <= 16
  {
    if n == 0 then 0 else (OP_1 - 1 + n) as Byte
  }

  /** `SetMultisig`. */
  function MultisigScript(required: nat, keys: seq<Bytes>): Bytes
    requires required <= |keys| <= 16
  {
    [OpN(required)] + (Pushes(keys) + ([OpN(|keys|)] + [OP_CHECKMULTISIG as Byte]))
  }

  lemma OpNReads(n: nat)
    requires n <= 16
    ensures
      var b := [OpN(n)];
      && IsSingle(b) && ReadOp(b).value.data == []
      && ReadOp(b).value.code == (if n == 0 then 0 else OP_1 - 1 + n)
  {
    hide LittleEndian;
  }

  lemma TurnOpN(env: Env, script: Bytes, op: Instr, m: Machine, n: nat)
    requires n <= 16 && op.data == [] && op.code == (if n == 0 then 0 else OP_1 - 1 + n)
    requires |m.stack| + |m.alt| < MAX_STACK
    ensures Turn(env, script, op, m, []) == Run(m.(stack := m.stack + [Encode(n)]), [])
  {
    hide Encode, Disabled;
    assert Executing([]);
    assert !Disabled(op.code) by {
      OpNEnabled(op.code);
    }
    if n == 0 {
      assert Encode(n) == [] by {
        EncodeZero();
      }
    }
  }

  lemma OpNEnabled(code: int)
    requires code <= OP_16
    ensures !Disabled(code)
  {
  }

  lemma EncodeZero()
    ensures Encode(0) == []
  {
  }

  lemma RunOpN(env: Env, script: Bytes, pc: nat, m: Machine, n: nat)
    requires n <= 16 && Holds(script, pc, [OpN(n)]) && |m.stack| + |m.alt| < MAX_STACK
    ensures Loop(env, script, Parse(script, pc), m, []) ==
              Loop(env, script, Parse(script, pc + 1), m.(stack := m.stack + [Encode(n)]), [])
  {
    hide Parse, Loop, Turn, ReadOp, Holds, Encode, OpN;
    OpNReads(n);
    LoopHeld(env, script, pc, [OpN(n)], m, []);
    var op := ReadOp([OpN(n)]).value;
    TurnOpN(env, script, Instr(op.code, op.data, pc + 1), m, n);
  }

  lemma TurnMultisig(env: Env, script: Bytes, after: nat, m: Machine)
    requires m.counted < MAX_OPS
    ensures
      var r := CheckMultisigOp(env, script, OP_CHECKMULTISIG, m.(counted := m.counted + 1));
      Turn(env, script, Instr(OP_CHECKMULTISIG, [], after), m, []) == Keep(r, [])
  {
    hide CheckMultisigOp, Keep;
    assert Executing([]);
  }

  lemma MultisigOpReads()
    ensures
      var b: Bytes := [OP_CHECKMULTISIG as Byte];
      IsSingle(b) && ReadOp(b).value == Op(OP_CHECKMULTISIG, [], 1)
  {
  }

  lemma RunMultisig(env: Env, script: Bytes, m: Machine, below: Stack, dummy: Bytes, sigs: seq<Bytes>, keys: seq<Bytes>)
    requires script != [] && Holds(script, |script| - 1, [OP_CHECKMULTISIG as Byte])
    requires m.stack == Laid(below, dummy, sigs, keys) && m.counted == 0 && m.codeStart == 0 && m.alt == []
    requires |sigs| <= |keys| <= MAX_KEYS && |below| < MAX_STACK
    requires (env.strict ==> AllEncoded(env, sigs, keys)) && (env.nullDummy ==> dummy == [])
    ensures
      var r := Loop(env, script, Parse(script, |script| - 1), m, []);
      r.Ok? && r.m.stack == below + [Flag(Embeds(env, EraseAll(script, Reverse(sigs)), sigs, keys))]
  {
    hide Parse, Loop, Turn, ReadOp, IsSingle, Holds, CheckMultisigOp, Laid, Embeds, EraseAll, Reverse, AllEncoded;
    MultisigOpReads();
    LoopHeld(env, script, |script| - 1, [OP_CHECKMULTISIG as Byte], m, []);
    TurnMultisig(env, script, |script|, m);
    var m' := m.(counted := 1);
    MultisigVerdict(env, script, m', below, dummy, sigs, keys);
    assert script[0..] == script;
    var r := CheckMultisigOp(env, script, OP_CHECKMULTISIG, m');
    ParseEnd(script);
    LoopEnds(env, script, true, r.m, []);
  }

  /** A multisignature script accepts exactly the signatures that match its keys in order. */
  lemma MultisigEvaluates(env: Env, keys: seq<Bytes>, below: Stack, dummy: Bytes, sigs: seq<Bytes>)
    requires |sigs| <= |keys| <= 16 && Small(keys)
    requires |MultisigScript(|sigs|, keys)| <= MAX_SCRIPT && |below| + |sigs| + |keys| + 3 <= MAX_STACK
    requires (env.strict ==> AllEncoded(env, sigs, keys)) && (env.nullDummy ==> dummy == [])
    ensures
      var script := MultisigScript(|sigs|, keys);
      var r := Eval(env, script, below + [dummy] + sigs);
      r.Ok? && r.m.stack == below + [Flag(Embeds(env, EraseAll(script, Reverse(sigs)), sigs, keys))]
  {
    hide Parse, Loop, Holds, Pushes, OpN, AllEncoded, Embeds, EraseAll, Reverse, Laid, MultisigScript;
    MultisigOperandsPushed(env, keys, below, dummy, sigs);
    MultisigLayout(|sigs|, keys);
    var m := Start(Laid(below, dummy, sigs, keys));
    RunMultisig(env, MultisigScript(|sigs|, keys), m, below, dummy, sigs, keys);
  }

  /** Up to its last byte, the script lays out the operands of CHECKMULTISIG. */
  lemma MultisigOperandsPushed(env: Env, keys: seq<Bytes>, below: Stack, dummy: Bytes, sigs: seq<Bytes>)
    requires |sigs| <= |keys| <= 16 && Small(keys) && |below| + |sigs| + |keys| + 3 <= MAX_STACK
    ensures
      var script := MultisigScript(|sigs|, keys);
      && script != []
      && Loop(env, script, Parse(script, 0), Start(below + [dummy] + sigs), [])
           == Loop(env, script, Parse(script, |script| - 1), Start(Laid(below, dummy, sigs, keys)), [])
  {
    hide Parse, Loop, Encode, Holds, Pushes, OpN, MultisigScript;
    var k, n := |sigs|, |keys|;
    var script := MultisigScript(k, keys);
    MultisigLayout(k, keys);
    var s0 := below + [dummy] + sigs;
    var s1 := s0 + [Encode(k)];
    var at := 1 + |Pushes(keys)|;
    RunOpN(env, script, 0, Start(s0), k);
    PushesRun(env, script, 1, keys, Start(s1));
    assert keys == [] ==> s1 + keys == s1;
    RunOpN(env, script, at, Start(s1 + keys), n);
  }

  lemma MultisigLayout(required: nat, keys: seq<Bytes>)
    requires required <= |keys| <= 16
    ensures
      var script := MultisigScript(required, keys);
      var at := 1 + |Pushes(keys)|;
      && |script| == at + 2
      && Holds(script, 0, [OpN(required)]) && Holds(script, 1, Pushes(keys))
      && Holds(script, at, [OpN(|keys|)]) && Holds(script, at + 1, [OP_CHECKMULTISIG as Byte])
  {
    hide Pushes, OpN;
    var script := MultisigScript(required, keys);
    assert Holds(script, 0, script);
    hide Holds;
    var tail := [OpN(|keys|)] + [OP_CHECKMULTISIG as Byte];
    HoldsSplit(script, 0, [OpN(required)], Pushes(keys) + tail);
    HoldsSplit(script, 1, Pushes(keys), tail);
    HoldsSplit(script, 1 + |Pushes(keys)|, [OpN(|keys|)], [OP_CHECKMULTISIG as Byte]);
  }
}
