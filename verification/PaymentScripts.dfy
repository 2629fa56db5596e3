/** The standard ways to pay, run on the machine: to a key, to the hash of a key, to a claim, and to the hash of a script. */
module PaymentScripts {
  import opened Basics
  import opened ScriptCodec
  import opened ScriptNum
  import opened ScriptMachine
  import opened ScriptEval
  import opened Multisig
  import opened MultisigScripts
  import opened SigOps
  import ScriptLaws

  // -------------------------------------------------------- one opcode in place

  lemma OpReads(code: int)
    requires OP_PUSHDATA4 < code < 256
    ensures IsSingle([code as Byte]) && ReadOp([code as Byte]).value == Op(code, [], 1)
  {
  }

  /** An operation that is neither a push nor a delimiter nor disabled is executed, and counted. */
  lemma TurnExecutes(env: Env, script: Bytes, code: int, after: nat, m: Machine)
    requires OP_16 < code && !(OP_IF <= code <= OP_ENDIF) && !Disabled(code) && m.counted < MAX_OPS
    ensures Turn(env, script, Instr(code, [], after), m, []) ==
              Keep(Execute(env, script, Instr(code, [], after), m.(counted := m.counted + 1)), [])
  {
    hide Execute, Disabled;
    assert Executing([]);
  }

  lemma RunOp(env: Env, script: Bytes, pc: nat, code: int, m: Machine)
    requires OP_16 < code < 256 && !(OP_IF <= code <= OP_ENDIF) && !Disabled(code) && m.counted < MAX_OPS
    requires Holds(script, pc, [code as Byte])
    ensures
      var r := Limit(Execute(env, script, Instr(code, [], pc + 1), m.(counted := m.counted + 1)));
      Loop(env, script, Parse(script, pc), m, []) ==
        if r.Fail? then r else Loop(env, script, Parse(script, pc + 1), r.m, [])
  {
    hide Parse, Loop, Turn, ReadOp, IsSingle, Holds, Execute, Disabled;
    OpReads(code);
    LoopHeld(env, script, pc, [code as Byte], m, []);
    TurnExecutes(env, script, code, pc + 1, m);
  }

  lemma RunPush(env: Env, script: Bytes, pc: nat, v: Bytes, m: Machine)
    requires Holds(script, pc, Push(v)) && |v| < 0x1_0000_0000
    ensures Loop(env, script, Parse(script, pc), m, []) ==
              if |v| > MAX_ELEMENT || |m.stack| + |m.alt| + 1 > MAX_STACK then Fail(m.checks)
              else Loop(env, script, Parse(script, pc + |Push(v)|), m.(stack := m.stack + [v]), [])
  {
    hide Parse, Loop, Turn, Push, ReadOp, IsSingle, Holds;
    PushReads(v);
    LoopHeld(env, script, pc, Push(v), m, []);
    TurnPushed(env, script, Instr(ReadOp(Push(v)).value.code, v, pc + |Push(v)|), m);
  }

  lemma RunEnds(env: Env, script: Bytes, m: Machine)
    ensures Loop(env, script, Parse(script, |script|), m, []) == Ok(m)
  {
    hide Parse, Loop;
    ParseEnd(script);
    LoopEnds(env, script, true, m, []);
  }

  // ----------------------------------------------- what each of them does to a stack

  lemma DupDoes(env: Env, script: Bytes, after: nat, m: Machine, below: Stack, x: Bytes)
    requires m.stack == below + [x]
    ensures Execute(env, script, Instr(0x76, [], after), m) == Ok(m.(stack := below + [x, x]))
  {
    assert below + [x] + [x] == below + [x, x];
  }

  lemma HashDoes(env: Env, script: Bytes, after: nat, m: Machine, below: Stack, x: Bytes)
    requires m.stack == below + [x]
    ensures Execute(env, script, Instr(0xa9, [], after), m) == Ok(m.(stack := below + [env.digest(0xa9, x)]))
  {
    assert Drop(m.stack, 1) == below && Top(m.stack, 1) == x;
  }

  lemma EqualDoes(env: Env, script: Bytes, after: nat, m: Machine, below: Stack, x: Bytes, y: Bytes)
    requires m.stack == below + [x, y]
    ensures Execute(env, script, Instr(0x87, [], after), m) == Ok(m.(stack := below + [Flag(x == y)]))
    ensures Execute(env, script, Instr(0x88, [], after), m) == if x == y then Ok(m.(stack := below)) else Fail(m.checks)
  {
    assert Drop(m.stack, 2) == below && Top(m.stack, 2) == x && Top(m.stack, 1) == y;
  }

  /** The signature lies below the key; it is taken out of the code it signs. */
  lemma CheckSigDoes(env: Env, script: Bytes, after: nat, m: Machine, below: Stack, sig: Bytes, key: Bytes)
    requires m.stack == below + [sig, key] && m.codeStart <= |script|
    ensures
      var r := Execute(env, script, Instr(0xac, [], after), m);
      var code := Erase(script[m.codeStart..], Push(sig));
      && (r.Ok? <==> env.strict ==> env.sigOk(sig) && env.keyOk(key))
      && (r.Ok? ==>
            && r.m.stack == below + [Flag(env.sigOk(sig) && env.keyOk(key) && env.checkSig(sig, key, code))]
            && r.m.alt == m.alt && r.m.counted == m.counted && r.m.codeStart == m.codeStart)
  {
    hide Erase, Push;
    assert Drop(m.stack, 2) == below && Top(m.stack, 2) == sig && Top(m.stack, 1) == key;
    var code := script[m.codeStart..];
    PushNotEmpty(sig);
    assert EraseAll(code, [sig]) == EraseAll(Erase(code, Push(sig)), [sig][1..]);
    assert SignedCode(script, m.codeStart, [sig]) == EraseAll(code, [sig]);
  }

  lemma FlagIsTrue(b: bool)
    ensures ToBool(Flag(b)) == b
  {
    if b {
      assert Flag(b)[0] == 1;
    }
  }

  // ------------------------------------------------------------------ paying to a key

  /** `<key> CHECKSIG`. */
  function KeyScript(key: Bytes): Bytes {
    Push(key) + [0xac]
  }

  lemma KeyLayout(key: Bytes)
    ensures
      var script, n := KeyScript(key), |Push(key)|;
      |script| == n + 1 && Holds(script, 0, Push(key)) && Holds(script, n, [0xac])
  {
    hide Push;
  }

  lemma KeyRuns(env: Env, key: Bytes, sig: Bytes)
    requires |key| <= MAX_ELEMENT && |KeyScript(key)| <= MAX_SCRIPT
    ensures
      var script := KeyScript(key);
      var r, good := Eval(env, script, [sig]), env.sigOk(sig) && env.keyOk(key);
      && (r.Ok? <==> env.strict ==> good)
      && (r.Ok? ==> r.m.stack == [Flag(good && env.checkSig(sig, key, Erase(script, Push(sig))))])
  {
    hide Parse, Loop, Push, Erase, Holds, KeyScript, Execute, Disabled, Flag;
    var script, n := KeyScript(key), |Push(key)|;
    KeyLayout(key);
    RunPush(env, script, 0, key, Start([sig]));
    var m := Start([sig, key]);
    assert [sig] + [key] == [sig, key] && [] + [sig, key] == [sig, key];
    NotDisabled();
    RunOp(env, script, n, 0xac, m);
    var m' := m.(counted := 1);
    CheckSigDoes(env, script, n + 1, m', [], sig, key);
    var r := Execute(env, script, Instr(0xac, [], n + 1), m');
    assert script[0..] == script;
    if r.Ok? {
      RunEnds(env, script, r.m);
    }
  }

  lemma NotDisabled()
    ensures !Disabled(0x76) && !Disabled(0xa9) && !Disabled(0x87) && !Disabled(0x88) && !Disabled(0xac) && !Disabled(0xc8)
  {
  }

  /** Spending what was paid to a key: the input verifies exactly when the signature checks for the key. */
  lemma KeyVerifies(env: Env, key: Bytes, sig: Bytes)
    requires |key| <= MAX_ELEMENT && |sig| <= MAX_ELEMENT
    ensures
      var script := KeyScript(key);
      Verify(env, Pushes([sig]), script).ok <==>
        env.sigOk(sig) && env.keyOk(key) && env.checkSig(sig, key, Erase(script, Push(sig)))
  {
    hide Eval, Push, Erase, KeyScript, Pushes, Flag, ToBool, IsPayToScriptHash, Parse, PushOnly;
    var script := KeyScript(key);
    KeySize(key);
    OnePush(sig);
    PushAllEvaluates(env, [sig], []);
    assert [] + [sig] == [sig] && Small([sig]);
    KeyRuns(env, key, sig);
    KeyNotHash(key);
    PushNotEmpty(sig);
    FlagIsTrue(env.sigOk(sig) && env.keyOk(key) && env.checkSig(sig, key, Erase(script, Push(sig))));
  }

  lemma KeySize(key: Bytes)
    requires |key| <= MAX_ELEMENT
    ensures |KeyScript(key)| <= |key| + 4
  {
  }

  lemma OnePush(v: Bytes)
    requires |v| <= MAX_ELEMENT
    ensures Pushes([v]) == Push(v) && |Push(v)| <= |v| + 3
  {
    assert Pushes([v]) == Push(v) + Pushes([v][1..]);
  }

  lemma KeyNotHash(key: Bytes)
    ensures !IsPayToScriptHash(KeyScript(key))
  {
    assert KeyScript(key)[0] == Push(key)[0];
  }

  // ------------------------------------------------------- paying to the hash of a key

  /** `DUP HASH160 <hash> EQUALVERIFY CHECKSIG`. */
  function KeyHashScript(hash: Bytes): Bytes {
    [0x76] + ([0xa9] + (Push(hash) + ([0x88] + [0xac])))
  }

  lemma KeyHashLayout(script: Bytes, at: nat, hash: Bytes)
    requires Holds(script, at, KeyHashScript(hash))
    ensures
      var n := at + 2 + |Push(hash)|;
      && Holds(script, at, [0x76]) && Holds(script, at + 1, [0xa9]) && Holds(script, at + 2, Push(hash))
      && Holds(script, n, [0x88]) && Holds(script, n + 1, [0xac])
  {
    hide Push, Holds;
    HoldsSplit(script, at, [0x76], [0xa9] + (Push(hash) + ([0x88] + [0xac])));
    HoldsSplit(script, at + 1, [0xa9], Push(hash) + ([0x88] + [0xac]));
    HoldsSplit(script, at + 2, Push(hash), [0x88] + [0xac]);
    HoldsSplit(script, at + 2 + |Push(hash)|, [0x88], [0xac]);
  }

  /** The first four operations: they pass exactly when the key has the hash, and leave signature and key. */
  lemma KeyHashCompares(env: Env, script: Bytes, at: nat, hash: Bytes, m: Machine, sig: Bytes, key: Bytes)
    requires Holds(script, at, KeyHashScript(hash)) && |hash| <= MAX_ELEMENT
    requires m.stack == [sig, key] && m.alt == [] && m.counted < 100
    ensures
      var n := at + 3 + |Push(hash)|;
      var r := Loop(env, script, Parse(script, at), m, []);
      if env.digest(0xa9, key) == hash then
        r == Loop(env, script, Parse(script, n), m.(counted := m.counted + 3), [])
      else r.Fail?
  {
    hide Parse, Loop, Push, Holds, KeyHashScript, Execute, Disabled;
    KeyHashLayout(script, at, hash);
    NotDisabled();
    var c, d := m.counted, env.digest(0xa9, key);
    assert [sig] + [key] == [sig, key];
    RunOp(env, script, at, 0x76, m);
    DupDoes(env, script, at + 1, m.(counted := c + 1), [sig], key);
    var m1 := m.(stack := [sig] + [key, key], counted := c + 1);
    assert m1.stack == [sig, key] + [key];
    RunOp(env, script, at + 1, 0xa9, m1);
    HashDoes(env, script, at + 2, m1.(counted := c + 2), [sig, key], key);
    var m2 := m1.(stack := [sig, key] + [d], counted := c + 2);
    RunPush(env, script, at + 2, hash, m2);
    var m3 := m2.(stack := m2.stack + [hash]);
    assert m3.stack == [sig, key] + [d, hash];
    RunOp(env, script, at + 2 + |Push(hash)|, 0x88, m3);
    EqualDoes(env, script, at + 3 + |Push(hash)|, m3.(counted := c + 3), [sig, key], d, hash);
  }

  /** The last one, at the end of any script that goes on with it. */
  lemma CheckSigEnds(env: Env, script: Bytes, m: Machine, sig: Bytes, key: Bytes)
    requires |script| > 0 && Holds(script, |script| - 1, [0xac])
    requires m.stack == [sig, key] && m.alt == [] && m.counted < 100 && m.codeStart == 0
    ensures
      var r, good := Loop(env, script, Parse(script, |script| - 1), m, []), env.sigOk(sig) && env.keyOk(key);
      && (r.Ok? <==> env.strict ==> good)
      && (r.Ok? ==> r.m.stack == [Flag(good && env.checkSig(sig, key, Erase(script, Push(sig))))])
  {
    hide Parse, Loop, Push, Erase, Holds, Execute, Disabled, Flag;
    NotDisabled();
    var n := |script| - 1;
    RunOp(env, script, n, 0xac, m);
    var m' := m.(counted := m.counted + 1);
    assert [] + [sig, key] == [sig, key] && script[0..] == script;
    CheckSigDoes(env, script, n + 1, m', [], sig, key);
    var r := Execute(env, script, Instr(0xac, [], n + 1), m');
    if r.Ok? {
      RunEnds(env, script, r.m);
    }
  }

  lemma KeyHashRuns(env: Env, hash: Bytes, sig: Bytes, key: Bytes)
    requires |hash| <= MAX_ELEMENT && |KeyHashScript(hash)| <= MAX_SCRIPT
    ensures
      var script := KeyHashScript(hash);
      var r, good := Eval(env, script, [sig, key]), env.sigOk(sig) && env.keyOk(key);
      && (r.Ok? <==> env.digest(0xa9, key) == hash && (env.strict ==> good))
      && (r.Ok? ==> r.m.stack == [Flag(good && env.checkSig(sig, key, Erase(script, Push(sig))))])
  {
    hide Parse, Loop, Push, Erase, KeyHashScript, Flag;
    var script := KeyHashScript(hash);
    assert Holds(script, 0, script);
    hide Holds;
    KeyHashLayout(script, 0, hash);
    KeyHashCompares(env, script, 0, hash, Start([sig, key]), sig, key);
    KeyHashSize(hash);
    CheckSigEnds(env, script, Start([sig, key]).(counted := 3), sig, key);
  }

  lemma KeyHashSize(hash: Bytes)
    ensures |KeyHashScript(hash)| == 4 + |Push(hash)|
    ensures |hash| <= MAX_ELEMENT ==> |KeyHashScript(hash)| <= MAX_SCRIPT
    ensures KeyHashScript(hash)[0] == 0x76 && !IsPayToScriptHash(KeyHashScript(hash))
  {
  }

  /** Spending what was paid to the hash of a key: the key has that hash, and the signature checks for the key. */
  lemma KeyHashVerifies(env: Env, hash: Bytes, sig: Bytes, key: Bytes)
    requires |hash| <= MAX_ELEMENT && |sig| <= MAX_ELEMENT && |key| <= MAX_ELEMENT
    ensures
      var script := KeyHashScript(hash);
      Verify(env, Pushes([sig, key]), script).ok <==>
        && env.digest(0xa9, key) == hash
        && env.sigOk(sig) && env.keyOk(key) && env.checkSig(sig, key, Erase(script, Push(sig)))
  {
    hide Eval, Push, Erase, KeyHashScript, Pushes, Flag, ToBool, IsPayToScriptHash, Parse, PushOnly;
    var script := KeyHashScript(hash);
    KeyHashSize(hash);
    TwoPushes(sig, key);
    PushAllEvaluates(env, [sig, key], []);
    assert [] + [sig, key] == [sig, key] && Small([sig, key]);
    KeyHashRuns(env, hash, sig, key);
    PushNotEmpty(sig);
    FlagIsTrue(env.sigOk(sig) && env.keyOk(key) && env.checkSig(sig, key, Erase(script, Push(sig))));
  }

  lemma TwoPushes(a: Bytes, b: Bytes)
    requires |a| <= MAX_ELEMENT && |b| <= MAX_ELEMENT
    ensures Pushes([a, b]) == Push(a) + Push(b) && |Pushes([a, b])| <= |a| + |b| + 6
  {
    hide Push;
    OnePush(a);
    OnePush(b);
    assert [a, b][1..] == [b];
  }

  // ---------------------------------------------------------------- paying to a claim

  /** `<claim> CLAIM DUP HASH160 <hash> EQUALVERIFY CHECKSIG`. */
  function ClaimScript(claim: Bytes, hash: Bytes): Bytes {
    Push(claim) + ([0xc8] + KeyHashScript(hash))
  }

  lemma ClaimDoes(env: Env, script: Bytes, after: nat, m: Machine, a: Bytes, b: Bytes, claim: Bytes)
    requires m.stack == [a, b] + [claim]
    ensures Execute(env, script, Instr(0xc8, [], after), m) ==
              if |claim| == 41 then Ok(m.(stack := [a, b])) else Fail(m.checks)
  {
    assert Drop(m.stack, 1) == [a, b] && Top(m.stack, 1) == claim;
  }

  lemma ClaimLayout(claim: Bytes, hash: Bytes)
    ensures
      var script, n := ClaimScript(claim, hash), |Push(claim)|;
      && |script| == n + 5 + |Push(hash)| && Holds(script, 0, Push(claim)) && Holds(script, n, [0xc8])
      && Holds(script, n + 1, KeyHashScript(hash)) && Holds(script, |script| - 1, [0xac])
  {
    hide Push, KeyHashScript;
    var script := ClaimScript(claim, hash);
    assert Holds(script, 0, script);
    hide Holds;
    HoldsSplit(script, 0, Push(claim), [0xc8] + KeyHashScript(hash));
    HoldsSplit(script, |Push(claim)|, [0xc8], KeyHashScript(hash));
    KeyHashLayout(script, |Push(claim)| + 1, hash);
    KeyHashSize(hash);
  }

  /** A claim of 41 bytes is spent like a payment to the hash of a key; one of another length never. */
  lemma ClaimVerifies(env: Env, claim: Bytes, hash: Bytes, sig: Bytes, key: Bytes)
    requires |claim| <= MAX_ELEMENT && |hash| <= MAX_ELEMENT && |sig| <= MAX_ELEMENT && |key| <= MAX_ELEMENT
    ensures
      var script := ClaimScript(claim, hash);
      Verify(env, Pushes([sig, key]), script).ok <==>
        && |claim| == 41 && env.digest(0xa9, key) == hash
        && env.sigOk(sig) && env.keyOk(key) && env.checkSig(sig, key, Erase(script, Push(sig)))
  {
    hide Eval, Push, Erase, ClaimScript, Pushes, Flag, ToBool, IsPayToScriptHash, Parse, PushOnly;
    var script := ClaimScript(claim, hash);
    ClaimSize(claim, hash);
    TwoPushes(sig, key);
    PushAllEvaluates(env, [sig, key], []);
    assert [] + [sig, key] == [sig, key] && Small([sig, key]);
    ClaimRuns(env, claim, hash, sig, key);
    PushNotEmpty(sig);
    FlagIsTrue(env.sigOk(sig) && env.keyOk(key) && env.checkSig(sig, key, Erase(script, Push(sig))));
  }

  lemma ClaimSize(claim: Bytes, hash: Bytes)
    requires |claim| <= MAX_ELEMENT && |hash| <= MAX_ELEMENT
    ensures |ClaimScript(claim, hash)| <= MAX_SCRIPT && !IsPayToScriptHash(ClaimScript(claim, hash))
  {
    hide KeyHashScript;
    KeyHashSize(hash);
    assert ClaimScript(claim, hash)[0] == Push(claim)[0];
  }

  lemma ClaimRuns(env: Env, claim: Bytes, hash: Bytes, sig: Bytes, key: Bytes)
    requires |claim| <= MAX_ELEMENT && |hash| <= MAX_ELEMENT && |ClaimScript(claim, hash)| <= MAX_SCRIPT
    ensures
      var script := ClaimScript(claim, hash);
      var r, good := Eval(env, script, [sig, key]), env.sigOk(sig) && env.keyOk(key);
      && (r.Ok? <==> |claim| == 41 && env.digest(0xa9, key) == hash && (env.strict ==> good))
      && (r.Ok? ==> r.m.stack == [Flag(good && env.checkSig(sig, key, Erase(script, Push(sig))))])
  {
    hide Parse, Loop, Push, Erase, ClaimScript, KeyHashScript, Holds, Execute, Disabled, Flag;
    var script, n := ClaimScript(claim, hash), |Push(claim)|;
    ClaimLayout(claim, hash);
    NotDisabled();
    RunPush(env, script, 0, claim, Start([sig, key]));
    var m := Start([sig, key] + [claim]);
    RunOp(env, script, n, 0xc8, m);
    ClaimDoes(env, script, n + 1, m.(counted := 1), sig, key, claim);
    if |claim| == 41 {
      var m1 := Start([sig, key]).(counted := 1);
      KeyHashCompares(env, script, n + 1, hash, m1, sig, key);
      CheckSigEnds(env, script, m1.(counted := 4), sig, key);
    }
  }

  // ---------------------------------------------------- paying to the hash of a script

  /** Push-only: it can be read to the end, and nothing in it goes beyond the opcode for 16. */
  lemma PushOnlyIff(script: Bytes)
    ensures
      var p := Parse(script, 0);
      PushOnly(p) <==> p.complete && forall i :: 0 <= i < |p.ops| ==> p.ops[i].code < 0x61
  {
    hide Parse;
  }

  /** The script hash form is recognized exactly as it is built. */
  lemma ScriptHashIff(script: Bytes)
    ensures IsPayToScriptHash(script) <==> |script| == 23 && script == ScriptHashScript(script[2..22])
  {
    hide Push;
    if |script| == 23 {
      var hash := script[2..22];
      ScriptHashForm(hash);
      ShortPush(hash);
      if IsPayToScriptHash(script) {
        assert script == [script[0]] + (([script[1]] + hash) + [script[22]]);
      }
    }
  }

  /** A run that ends with a true value on top. */
  ghost predicate LeavesTrue(r: Result) {
    r.Ok? && |r.m.stack| > 0 && Decode(r.m.stack[|r.m.stack| - 1]) != 0
  }

  lemma AcceptsIff(r: Result)
    ensures Accepts(r) <==> LeavesTrue(r)
  {
    if r.Ok? && r.m.stack != [] {
      BoolIsNonZero(Top(r.m.stack, 1));
    }
  }

  lemma ScriptHashHolds(script: Bytes)
    requires IsPayToScriptHash(script)
    ensures Holds(script, 0, [0xa9]) && Holds(script, 1, Push(script[2..22])) && |Push(script[2..22])| == 21
    ensures Holds(script, 22, [0x87]) && |script| == 23
  {
    assert Push(script[2..22]) == [0x14] + script[2..22];
    assert script[1..22] == [script[1]] + script[2..22];
  }

  /** `HASH160 <hash> EQUAL`: whether the top has the hash, as long as there is room for one value more. */
  lemma ScriptHashRuns(env: Env, script: Bytes, below: Stack, x: Bytes)
    requires IsPayToScriptHash(script) && |below| + 1 <= MAX_STACK
    ensures Eval(env, script, below + [x]).Ok? <==> |below| + 2 <= 1000
    ensures Eval(env, script, below + [x]).Ok? ==>
              Eval(env, script, below + [x]).m.stack == below + [Flag(env.digest(0xa9, x) == script[2..22])]
  {
    hide Parse, Loop, Push, Holds, Execute, Disabled, Flag;
    ScriptHashHolds(script);
    NotDisabled();
    var hash, d := script[2..22], env.digest(0xa9, x);
    hide IsPayToScriptHash;
    var m := Start(below + [x]);
    RunOp(env, script, 0, 0xa9, m);
    HashDoes(env, script, 1, m.(counted := 1), below, x);
    var m1 := m.(stack := below + [d], counted := 1);
    RunPush(env, script, 1, hash, m1);
    if |below| + 2 <= 1000 {
      var m2 := m1.(stack := below + [d, hash]);
      assert below + [d] + [hash] == below + [d, hash];
      RunOp(env, script, 22, 0x87, m2);
      EqualDoes(env, script, 23, m2.(counted := 2), below, d, hash);
      RunEnds(env, script, m2.(stack := below + [Flag(d == hash)], counted := 2));
    }
  }

  /**
   Spending what was paid to the hash of a script: the signature script runs, pushes only, leaves room for one value
   more, and leaves a script of that hash on top; and that script, run over the rest, leaves true.
   */
  lemma ScriptHashVerifies(env: Env, scriptSig: Bytes, scriptPubKey: Bytes)
    requires IsPayToScriptHash(scriptPubKey)
    ensures
      var first := Eval(env, scriptSig, []);
      Verify(env, scriptSig, scriptPubKey).ok <==>
        && first.Ok? && PushOnly(Parse(scriptSig, 0)) && 0 < |first.m.stack| < 1000
        && var n := |first.m.stack| - 1;
           && env.digest(0xa9, first.m.stack[n]) == scriptPubKey[2..22]
           && LeavesTrue(Eval(env, first.m.stack[n], first.m.stack[..n]))
  {
    hide Eval, Parse, PushOnly, ToBool, Decode, Flag;
    var first := Eval(env, scriptSig, []);
    if first.Ok? {
      ScriptHashNeedsArgument(env, scriptPubKey, first.m.stack);
      if first.m.stack != [] {
        var n := |first.m.stack| - 1;
        var x, below := first.m.stack[n], first.m.stack[..n];
        assert first.m.stack == below + [x];
        FirstFits(env, scriptSig);
        ScriptHashRuns(env, scriptPubKey, below, x);
        FlagIsTrue(env.digest(0xa9, x) == scriptPubKey[2..22]);
        AcceptsIff(Eval(env, x, below));
      }
    }
  }

  lemma FirstFits(env: Env, script: Bytes)
    requires Eval(env, script, []).Ok?
    ensures |Eval(env, script, []).m.stack| <= MAX_STACK
  {
    hide Loop, Parse;
    var p := Parse(script, 0);
    if p.ops == [] {
      LoopEnds(env, script, p.complete, Start([]), []);
    } else {
      ScriptLaws.AcceptedWithinLimits(env, script, p, Start([]), []);
    }
  }

  /** Any other payment: the input verifies exactly when both scripts run and the second leaves true. */
  lemma PlainVerifies(env: Env, scriptSig: Bytes, scriptPubKey: Bytes)
    requires !IsPayToScriptHash(scriptPubKey)
    ensures
      var first := Eval(env, scriptSig, []);
      Verify(env, scriptSig, scriptPubKey).ok <==>
        first.Ok? && LeavesTrue(Eval(env, scriptPubKey, first.m.stack))
  {
    hide Eval, Parse, ToBool, Decode;
    var first := Eval(env, scriptSig, []);
    if first.Ok? {
      AcceptsIff(Eval(env, scriptPubKey, first.m.stack));
    }
  }

  /** `HASH160 <hash> EQUAL`. */
  function ScriptHashScript(hash: Bytes): Bytes {
    [0xa9] + (Push(hash) + [0x87])
  }

  lemma ShortPush(hash: Bytes)
    requires |hash| == 20
    ensures Push(hash) == [0x14] + hash
  {
  }

  lemma ScriptHashForm(hash: Bytes)
    requires |hash| == 20
    ensures IsPayToScriptHash(ScriptHashScript(hash)) && ScriptHashScript(hash)[2..22] == hash
  {
    hide Push;
    ShortPush(hash);
    Middle(0xa9, 0x14, hash, 0x87);
  }

  lemma Middle(a: Byte, b: Byte, hash: Bytes, c: Byte)
    requires |hash| == 20
    ensures
      var s := [a] + (([b] + hash) + [c]);
      |s| == 23 && s[0] == a && s[1] == b && s[2..22] == hash && s[22] == c
  {
  }

  lemma {:induction false} PushesPushOnly(values: seq<Bytes>, pc: nat, script: Bytes)
    requires Holds(script, pc, Pushes(values)) && pc + |Pushes(values)| == |script|
    requires forall i :: 0 <= i < |values| ==> |values[i]| < 0x1_0000_0000
    ensures PushOnly(Parse(script, pc))
    decreases |values|
  {
    hide Parse, Push, ReadOp, IsSingle, Holds;
    if values == [] {
      ParseEnd(script);
    } else {
      var v, rest := values[0], values[1..];
      HoldsSplit(script, pc, Push(v), Pushes(rest));
      PushReads(v);
      ReadHeld(script, pc, Push(v));
      assert Push(v) != [] by {
        PushNotEmpty(v);
      }
      assert ReadOp(Push(v)).value.next == |Push(v)| by {
        SingleNext(Push(v));
      }
      assert pc < |script| by {
        HeldInside(script, pc, Push(v));
      }
      ParseStep(script, pc);
      PushesPushOnly(rest, pc + |Push(v)|, script);
      PushOnlyStep(Parse(script, pc));
    }
  }

  lemma SingleNext(b: Bytes)
    requires IsSingle(b)
    ensures ReadOp(b).value.next == |b|
  {
  }

  lemma HeldInside(script: Bytes, pc: nat, b: Bytes)
    requires Holds(script, pc, b) && b != []
    ensures pc < |script|
  {
  }

  /** Pushing values and a script last: the pushes run, and it is the script that is looked at. */
  lemma ScriptHashPushed(env: Env, hash: Bytes, values: seq<Bytes>, redeem: Bytes)
    requires |hash| == 20 && Small(values) && |redeem| <= MAX_ELEMENT && |values| < 999
    requires |Pushes(values + [redeem])| <= MAX_SCRIPT
    ensures Verify(env, Pushes(values + [redeem]), ScriptHashScript(hash)).ok <==>
              env.digest(0xa9, redeem) == hash && LeavesTrue(Eval(env, redeem, values))
  {
    hide Eval, Parse, Push, Pushes, ScriptHashScript, PushOnly, Decode, IsPayToScriptHash, Holds, LeavesTrue;
    var all := values + [redeem];
    var scriptSig := Pushes(all);
    assert Small(all);
    PushAllEvaluates(env, all, []);
    assert [] + all == all;
    SmallIsShort(all);
    HoldsAll(scriptSig);
    PushesPushOnly(all, 0, scriptSig);
    ScriptHashForm(hash);
    ScriptHashVerifies(env, scriptSig, ScriptHashScript(hash));
    assert all[|values|] == redeem && all[..|values|] == values;
  }

  /**
   A multisignature script behind its hash: pushing the signatures and the script spends it exactly when the script has
   the hash and the signatures match its keys in order.
   */
  lemma ScriptHashMultisig(env: Env, hash: Bytes, keys: seq<Bytes>, sigs: seq<Bytes>)
    requires |hash| == 20 && |sigs| <= |keys| <= 16 && Small(keys) && Small(sigs)
    requires
      var redeem := MultisigScript(|sigs|, keys);
      |redeem| <= MAX_ELEMENT && |Pushes([[]] + sigs + [redeem])| <= MAX_SCRIPT
    requires env.strict ==> AllEncoded(env, sigs, keys)
    ensures
      var redeem := MultisigScript(|sigs|, keys);
      Verify(env, Pushes([[]] + sigs + [redeem]), ScriptHashScript(hash)).ok <==>
        env.digest(0xa9, redeem) == hash && Embeds(env, EraseAll(redeem, Reverse(sigs)), sigs, keys)
  {
    hide Eval, Pushes, MultisigScript, ScriptHashScript, Embeds, EraseAll, Reverse, AllEncoded, Flag, Small, Decode, Verify;
    var redeem := MultisigScript(|sigs|, keys);
    SmallBlank(sigs);
    ScriptHashPushed(env, hash, [[]] + sigs, redeem);
    MultisigEvaluates(env, keys, [], [], sigs);
    assert [] + [[]] + sigs == [[]] + sigs;
    var ok := Embeds(env, EraseAll(redeem, Reverse(sigs)), sigs, keys);
    assert [] + [Flag(ok)] == [Flag(ok)];
    FlagIsTrue(ok);
    BoolIsNonZero(Flag(ok));
  }

  lemma SmallIsShort(values: seq<Bytes>)
    requires Small(values)
    ensures forall i :: 0 <= i < |values| ==> |values[i]| < 0x1_0000_0000
  {
  }

  lemma HoldsAll(script: Bytes)
    ensures Holds(script, 0, script)
  {
  }
}
