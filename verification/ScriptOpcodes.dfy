/** What the opcodes do, said of short scripts that push their operands and run them. */
module ScriptOpcodes {
  import opened Basics
  import opened ScriptCodec
  import opened ScriptNum
  import opened ScriptMachine
  import opened ScriptEval
  import opened MultisigScripts
  import opened PaymentScripts
  import ScriptLaws

  // -------------------------------------------------------- operands, then an opcode

  /** Some pushes followed by one opcode. */
  function Applied(values: seq<Bytes>, code: int): Bytes
    requires 0 <= code < 256
  {
    Pushes(values) + [code as Byte]
  }

  lemma AppliedLayout(values: seq<Bytes>, code: int)
    requires 0 <= code < 256
    ensures
      var script, n := Applied(values, code), |Pushes(values)|;
      |script| == n + 1 && Holds(script, 0, Pushes(values)) && Holds(script, n, [code as Byte])
  {
    hide Pushes;
  }

  predicate Plain(code: int) {
    0x60 < code < 256 && !(0x63 <= code <= 0x68) && !Disabled(code)
  }

  /** The machine that meets the opcode. */
  function Loaded(values: seq<Bytes>): Machine {
    Start(values).(counted := 1)
  }

  lemma RunApplied(env: Env, values: seq<Bytes>, code: int)
    requires Plain(code) && Small(values) && |values| <= 100 && |Applied(values, code)| <= MAX_SCRIPT
    ensures
      var script := Applied(values, code);
      Eval(env, script, []) == Limit(Execute(env, script, Instr(code, [], |script|), Loaded(values)))
  {
    hide Parse, Loop, Pushes, Holds, Execute, Disabled, Applied, Small;
    var script, n := Applied(values, code), |Pushes(values)|;
    AppliedLayout(values, code);
    assert forall i :: 0 <= i < |values| ==> |values[i]| < 0x1_0000_0000 by {
      SmallIsShort(values);
    }
    PushesRun(env, script, 0, values, Start([]));
    assert [] + values == values;
    assert values == [] ==> n == 0 by {
      NoPushes();
    }
    RunOp(env, script, n, code, Start(values));
    var r := Limit(Execute(env, script, Instr(code, [], n + 1), Loaded(values)));
    if r.Ok? {
      RunEnds(env, script, r.m);
    }
  }

  lemma NoPushes()
    ensures Pushes([]) == []
  {
  }

  lemma {:induction false} PushesSize(values: seq<Bytes>)
    requires Small(values)
    ensures |Pushes(values)| <= 523 * |values|
    decreases |values|
  {
    if values != [] {
      SmallStep(values);
      PushesSize(values[1..]);
    }
  }

  lemma RunFew(env: Env, values: seq<Bytes>, code: int)
    requires Plain(code) && Small(values) && |values| <= 3
    ensures
      var script := Applied(values, code);
      Eval(env, script, []) == Limit(Execute(env, script, Instr(code, [], |script|), Loaded(values)))
  {
    hide Eval, Execute, Pushes, Disabled, Small;
    PushesSize(values);
    RunApplied(env, values, code);
  }

  // ----------------------------------------------------------------- arithmetic

  function Truth(b: bool): int {
    if b then 1 else 0
  }

  /** What a script of one or more numbers and an opcode leaves, when it leaves one number. */
  ghost predicate LeavesNumber(r: Result, n: int) {
    r.Ok? && |r.m.stack| == 1 && Decode(r.m.stack[0]) == n
  }

  lemma EncodedNumber(s: Stack, n: int)
    requires s == [] + [Encode(n)]
    ensures |s| == 1 && Decode(s[0]) == n
  {
    NumberRoundTrip(n);
  }

  lemma FlagNumber(b: bool)
    ensures Decode(Flag(b)) == Truth(b)
  {
    if b {
      var one: Bytes := [1];
      assert one[..0] + [1] == one;
      assert LittleEndian(one) == 1 + LittleEndian(one[1..]) * 256;
    }
  }

  /** One number: any operand of at most four bytes works, a longer one fails. */
  lemma UnaryScript(env: Env, code: int, v: Bytes)
    requires |v| <= 520 && code in {0x8b, 0x8c, 0x8f, 0x90, 0x91, 0x92}
    ensures
      var r, n := Eval(env, Applied([v], code), []), Decode(v);
      && (r.Ok? <==> |v| <= 4)
      && (|v| <= 4 && code == 0x8b ==> LeavesNumber(r, n + 1))
      && (|v| <= 4 && code == 0x8c ==> LeavesNumber(r, n - 1))
      && (|v| <= 4 && code == 0x8f ==> LeavesNumber(r, 0 - n))
      && (|v| <= 4 && code == 0x90 ==> LeavesNumber(r, if n >= 0 then n else 0 - n))
      && (|v| <= 4 && code == 0x91 ==> LeavesNumber(r, Truth(n == 0)))
      && (|v| <= 4 && code == 0x92 ==> LeavesNumber(r, Truth(n != 0)))
  {
    hide Eval, Decode, Encode, Applied, Pushes, Disabled;
    assert Plain(code) by {
      NumericPlain(code);
    }
    RunFew(env, [v], code);
    var s: Stack := [v];
    assert Top(s, 1) == v && Drop(s, 1) == [];
    EncodedNumber([] + [Encode(Unary(code, Decode(v)))], Unary(code, Decode(v)));
  }

  lemma NumericPlain(code: int)
    requires code in {0x8b, 0x8c, 0x8f, 0x90, 0x91, 0x92, 0x93, 0x94} || 0x9a <= code <= 0xa5
    ensures Plain(code)
  {
  }

  /** What two numbers come to. */
  ghost predicate Meaning(code: int, a: int, b: int, n: int) {
    && (code == 0x93 ==> n == a + b) && (code == 0x94 ==> n + b == a)
    && (code == 0x9a ==> n == Truth(a != 0 && b != 0)) && (code == 0x9b ==> n == Truth(a != 0 || b != 0))
    && (code == 0x9c ==> n == Truth(a == b)) && (code == 0x9e ==> n == Truth(a != b))
    && (code == 0x9f ==> n == Truth(a < b)) && (code == 0xa0 ==> n == Truth(b < a))
    && (code == 0xa1 ==> n == Truth(a <= b)) && (code == 0xa2 ==> n == Truth(b <= a))
    && (code == 0xa3 ==> n in {a, b} && n <= a && n <= b) && (code == 0xa4 ==> n in {a, b} && a <= n && b <= n)
  }

  /** Two numbers, the first pushed first. */
  lemma BinaryScript(env: Env, code: int, v: Bytes, w: Bytes)
    requires |v| <= 520 && |w| <= 520
    requires code in {0x93, 0x94, 0x9a, 0x9b, 0x9c} || 0x9e <= code <= 0xa4
    ensures
      var r := Eval(env, Applied([v, w], code), []);
      && (r.Ok? <==> |v| <= 4 && |w| <= 4)
      && (r.Ok? ==> exists n :: Meaning(code, Decode(v), Decode(w), n) && LeavesNumber(r, n))
  {
    hide Eval, Decode, Encode, Applied, Pushes, Disabled;
    assert Plain(code) by {
      NumericPlain(code);
    }
    RunFew(env, [v, w], code);
    var s: Stack := [v, w];
    assert Top(s, 1) == w && Top(s, 2) == v && Drop(s, 2) == [];
    var n := Binary(code, Decode(v), Decode(w));
    EncodedNumber([] + [Encode(n)], n);
    assert Meaning(code, Decode(v), Decode(w), n);
  }

  /** A number, and the bounds it must lie between: the lower one included, the upper one not. */
  lemma WithinScript(env: Env, x: Bytes, low: Bytes, high: Bytes)
    requires |x| <= 520 && |low| <= 520 && |high| <= 520
    ensures
      var r := Eval(env, Applied([x, low, high], 0xa5), []);
      && (r.Ok? <==> |x| <= 4 && |low| <= 4 && |high| <= 4)
      && (r.Ok? ==> LeavesNumber(r, Truth(Decode(low) <= Decode(x) < Decode(high))))
  {
    hide Eval, Decode, Encode, Applied, Pushes, Disabled;
    assert Plain(0xa5) by {
      NumericPlain(0xa5);
    }
    RunFew(env, [x, low, high], 0xa5);
    var s: Stack := [x, low, high];
    assert Top(s, 1) == high && Top(s, 2) == low && Top(s, 3) == x && Drop(s, 3) == [];
    FlagNumber(Decode(low) <= Decode(x) < Decode(high));
  }

  // ------------------------------------------------------------- sizes, depth, hashes

  lemma OtherPlain(code: int)
    requires code in {0x61, 0x73, 0x74, 0x82, 0xa6, 0xa7, 0xa8, 0xa9, 0xaa, 0xb1} || 0xb0 <= code <= 0xb9
    ensures Plain(code)
  {
  }

  /** SIZE adds the length, DEPTH the number of values, and IFDUP a copy of a value that is true. */
  lemma StackReaders(env: Env, v: Bytes, w: Bytes)
    requires |v| <= 520 && |w| <= 520
    ensures
      var r := Eval(env, Applied([v, w], 0x82), []);
      r.Ok? && |r.m.stack| == 3 && r.m.stack[..2] == [v, w] && Decode(r.m.stack[2]) == |w|
    ensures
      var r := Eval(env, Applied([v, w], 0x74), []);
      r.Ok? && |r.m.stack| == 3 && r.m.stack[..2] == [v, w] && Decode(r.m.stack[2]) == 2
    ensures
      var r := Eval(env, Applied([v, w], 0x73), []);
      r.Ok? && r.m.stack == if Decode(w) != 0 then [v, w, w] else [v, w]
  {
    hide Eval, Decode, Encode, Applied, Pushes, Disabled, ToBool, Arithmetic, CheckSigOp, CheckMultisigOp, LockTimeOp;
    var s: Stack := [v, w];
    assert Top(s, 1) == w;
    NumberRoundTrip(|w|);
    NumberRoundTrip(2);
    BoolIsNonZero(w);
    OtherPlain(0x82);
    OtherPlain(0x74);
    OtherPlain(0x73);
    RunFew(env, s, 0x82);
    RunFew(env, s, 0x74);
    RunFew(env, s, 0x73);
    assert s + [w] == [v, w, w];
  }

  /** A hash opcode replaces the top by its digest under that opcode. */
  lemma HashScript(env: Env, code: int, v: Bytes, w: Bytes)
    requires |v| <= 520 && |w| <= 520 && 0xa6 <= code <= 0xaa
    ensures
      var r := Eval(env, Applied([v, w], code), []);
      r.Ok? && r.m.stack == [v, env.digest(code, w)]
  {
    hide Eval, Applied, Pushes, Disabled, Shuffle, Arithmetic, CheckSigOp, CheckMultisigOp, LockTimeOp;
    var s: Stack := [v, w];
    assert Top(s, 1) == w && Drop(s, 1) == [v];
    OtherPlain(code);
    RunFew(env, s, code);
    assert [v] + [env.digest(code, w)] == [v, env.digest(code, w)];
  }

  lemma PutDoes(env: Env, script: Bytes, m: Machine, s: Stack, x: Bytes)
    requires m.stack == s + [x]
    ensures Execute(env, script, Instr(0x6b, [], 0), m) == Ok(m.(stack := s, alt := m.alt + [x]))
  {
    hide Shuffle, Arithmetic, CheckSigOp, CheckMultisigOp, LockTimeOp, Encode, ToBool;
    assert Drop(m.stack, 1) == s && Top(m.stack, 1) == x;
  }

  lemma TakeDoes(env: Env, script: Bytes, m: Machine, a: Stack, x: Bytes)
    requires m.alt == a + [x]
    ensures Execute(env, script, Instr(0x6c, [], 0), m) == Ok(m.(stack := m.stack + [x], alt := a))
  {
    hide Shuffle, Arithmetic, CheckSigOp, CheckMultisigOp, LockTimeOp, Encode, ToBool;
    assert Drop(m.alt, 1) == a && Top(m.alt, 1) == x;
  }

  lemma NothingToMove(env: Env, script: Bytes, m: Machine)
    ensures m.stack == [] ==> Execute(env, script, Instr(0x6b, [], 0), m).Fail?
    ensures m.alt == [] ==> Execute(env, script, Instr(0x6c, [], 0), m).Fail?
  {
    hide Shuffle, Arithmetic, CheckSigOp, CheckMultisigOp, LockTimeOp, Encode, ToBool;
  }

  lemma LastOf(s: Stack)
    requires s != []
    ensures s == s[..|s| - 1] + [s[|s| - 1]]
  {
  }

  /** The second stack gives back what was put there last, and both ways round nothing changes. */
  lemma AltStack(env: Env, script: Bytes, m: Machine)
    ensures
      var put := Execute(env, script, Instr(0x6b, [], 0), m);
      && (put.Ok? <==> m.stack != [])
      && (put.Ok? ==> Execute(env, script, Instr(0x6c, [], 0), put.m) == Ok(m))
    ensures
      var got := Execute(env, script, Instr(0x6c, [], 0), m);
      && (got.Ok? <==> m.alt != [])
      && (got.Ok? ==> got.m.stack != [] && Execute(env, script, Instr(0x6b, [], 0), got.m) == Ok(m))
  {
    hide Execute;
    NothingToMove(env, script, m);
    if m.stack != [] {
      var s, x := m.stack[..|m.stack| - 1], m.stack[|m.stack| - 1];
      LastOf(m.stack);
      PutDoes(env, script, m, s, x);
      TakeDoes(env, script, m.(stack := s, alt := m.alt + [x]), m.alt, x);
    }
    if m.alt != [] {
      var a, x := m.alt[..|m.alt| - 1], m.alt[|m.alt| - 1];
      LastOf(m.alt);
      TakeDoes(env, script, m, a, x);
      PutDoes(env, script, m.(stack := m.stack + [x], alt := a), m.stack, x);
    }
  }

  // --------------------------------------------------------------- lock time and no-ops

  /** Where the flag is set, CHECKLOCKTIMEVERIFY lets a script go on exactly when its number is a lock time reached. */
  lemma LockTimeScript(env: Env, v: Bytes)
    requires |v| <= 520
    ensures
      var r := Eval(env, Applied([v], 0xb1), []);
      && (r.Ok? <==>
            if env.lockTime then |v| <= 5 && Decode(v) >= 0 && env.lockTimeOk(Decode(v)) else !env.discourageNops)
      && (r.Ok? ==> r.m.stack == [v])
  {
    hide Eval, Decode, Applied, Pushes, Disabled;
    OtherPlain(0xb1);
    RunFew(env, [v], 0xb1);
    var s: Stack := [v];
    assert Top(s, 1) == v;
  }

  /** NOP does nothing; the ten others do nothing, or fail where they are discouraged. */
  lemma NopScript(env: Env, code: int, v: Bytes)
    requires |v| <= 520 && (code == 0x61 || (0xb0 <= code <= 0xb9 && code != 0xb1))
    ensures
      var r := Eval(env, Applied([v], code), []);
      (r.Ok? <==> code == 0x61 || !env.discourageNops) && (r.Ok? ==> r.m.stack == [v])
  {
    hide Eval, Applied, Pushes, Disabled;
    OtherPlain(code);
    RunFew(env, [v], code);
  }

  // ------------------------------------------------------------ small numbers, failures

  /** The opcodes for -1 and 1 to 16 leave their number. */
  lemma SmallNumberScript(env: Env, code: int)
    requires code == 0x4f || 0x51 <= code <= 0x60
    ensures LeavesNumber(Eval(env, [code as Byte], []), code - 0x50)
  {
    hide Parse, Loop, Turn, ReadOp, IsSingle, Holds, Encode, Decode;
    var script := [code as Byte];
    HoldsAll(script);
    OpReads(code);
    LoopHeld(env, script, 0, script, Start([]), []);
    SmallTurn(env, script, code, 1, Start([]));
    RunEnds(env, script, Start([Encode(code - 0x50)]));
    NumberRoundTrip(code - 0x50);
  }

  lemma SmallTurn(env: Env, script: Bytes, code: int, after: nat, m: Machine)
    requires (code == 0x4f || 0x51 <= code <= 0x60) && m.stack == [] && m.alt == []
    ensures Turn(env, script, Instr(code, [], after), m, []) == Run(m.(stack := [Encode(code - 0x50)]), [])
  {
    hide Encode;
    assert Executing([]);
  }

  /** Reserved and unknown opcodes fail where they are executed, and so does RETURN. */
  lemma UnknownFails(env: Env, script: Bytes, op: Instr, m: Machine)
    requires op.code in {0x50, 0x62, 0x6a, 0x89, 0x8a} || (op.code >= 0xba && op.code != 0xc8)
    ensures Execute(env, script, op, m).Fail?
  {
  }

  /** The disabled opcodes and the two reserved IF forms fail a script wherever they stand, skipped or not. */
  lemma DisabledFails(env: Env, script: Bytes, i: nat)
    requires i < |Parse(script, 0).ops|
    requires
      var code := Parse(script, 0).ops[i].code;
      || 0x7e <= code <= 0x81 || 0x83 <= code <= 0x86 || code == 0x8d || code == 0x8e || 0x95 <= code <= 0x99
      || code == 0x65 || code == 0x66
    ensures Eval(env, script, []).Fail?
  {
    hide Parse, Loop;
    if Eval(env, script, []).Ok? {
      ScriptLaws.AcceptedWithinLimits(env, script, Parse(script, 0), Start([]), []);
    }
  }

  // -------------------------------------------------------------- how many operations

  function Nops(n: nat): Bytes {
    seq(n, _ => 0x61)
  }

  lemma NopTurn(env: Env, script: Bytes, after: nat, m: Machine)
    requires |m.stack| + |m.alt| <= MAX_STACK
    ensures Turn(env, script, Instr(0x61, [], after), m, []) ==
              if m.counted >= 201 then Stop(m.checks) else Run(m.(counted := m.counted + 1), [])
  {
    assert Executing([]);
  }

  lemma {:induction false} NopsRun(env: Env, n: nat, pc: nat, m: Machine)
    requires pc <= n && m.stack == [] && m.alt == [] && m.counted == pc <= 201
    ensures Loop(env, Nops(n), Parse(Nops(n), pc), m, []).Ok? <==> n <= 201
    decreases n - pc
  {
    hide Parse, Loop, Turn, ReadOp, IsSingle;
    var script := Nops(n);
    if pc == n {
      RunEnds(env, script, m);
    } else {
      assert Holds(script, pc, [0x61]);
      OpReads(0x61);
      LoopHeld(env, script, pc, [0x61], m, []);
      NopTurn(env, script, pc + 1, m);
      if pc < 201 {
        NopsRun(env, n, pc + 1, m.(counted := pc + 1));
      }
    }
  }

  /** Exactly 201 counted operations are allowed. */
  lemma OperationLimit(env: Env, n: nat)
    ensures Eval(env, Nops(n), []).Ok? <==> n <= 201
  {
    hide Parse, Loop, Nops;
    assert |Nops(n)| == n by {
      NopsSize(n);
    }
    NopsRun(env, n, 0, Start([]));
  }

  lemma NopsSize(n: nat)
    ensures |Nops(n)| == n
  {
  }

  // ----------------------------------------------------------------- code separators

  /** A signature covers only what follows the last separator executed. */
  lemma SeparatorCuts(env: Env, key: Bytes, sig: Bytes)
    requires |key| <= 520
    ensures
      var r, good := Eval(env, [0xab] + KeyScript(key), [sig]), env.sigOk(sig) && env.keyOk(key);
      && (r.Ok? <==> env.strict ==> good)
      && (r.Ok? ==> r.m.stack == [Flag(good && env.checkSig(sig, key, Erase(KeyScript(key), Push(sig))))])
  {
    hide Parse, Loop, Push, Erase, Holds, KeyScript, Execute, Disabled, Flag;
    var script, n := [0xab] + KeyScript(key), 1 + |Push(key)|;
    SeparatorLayout(key);
    KeySize(key);
    SeparatorPlain();
    var m := Start([sig]);
    RunOp(env, script, 0, 0xab, m);
    SeparatorDoes(env, script, 1, m.(counted := 1));
    var m1 := m.(counted := 1, codeStart := 1);
    RunPush(env, script, 1, key, m1);
    var m2 := m1.(stack := [sig, key]);
    assert [sig] + [key] == [sig, key] && [] + [sig, key] == [sig, key];
    RunOp(env, script, n, 0xac, m2);
    CheckSigDoes(env, script, n + 1, m2.(counted := 2), [], sig, key);
    assert script[1..] == KeyScript(key);
    var r := Execute(env, script, Instr(0xac, [], n + 1), m2.(counted := 2));
    if r.Ok? {
      RunEnds(env, script, r.m);
    }
  }

  lemma SeparatorPlain()
    ensures !Disabled(0xab) && !Disabled(0xac)
  {
  }

  lemma SeparatorDoes(env: Env, script: Bytes, after: nat, m: Machine)
    ensures Execute(env, script, Instr(0xab, [], after), m) == Ok(m.(codeStart := after))
  {
  }

  lemma SeparatorLayout(key: Bytes)
    ensures
      var script, n := [0xab] + KeyScript(key), 1 + |Push(key)|;
      && |script| == n + 1 && |KeyScript(key)| == n
      && Holds(script, 0, [0xab]) && Holds(script, 1, Push(key)) && Holds(script, n, [0xac])
  {
    hide Push;
    var script := [0xab] + (Push(key) + [0xac]);
    assert Holds(script, 0, script);
    HoldsSplit(script, 0, [0xab], Push(key) + [0xac]);
    HoldsSplit(script, 1, Push(key), [0xac]);
  }
}
