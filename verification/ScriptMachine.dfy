/** The script machine: one operation at a time on two stacks, with the flag stack of IF blocks. */
module ScriptMachine {
  import opened Basics
  import opened ScriptCodec
  import opened ScriptNum

  const OP_1NEGATE := 0x4f
  const OP_NOP := 0x61
  const OP_IF := 0x63
  const OP_NOTIF := 0x64
  const OP_ELSE := 0x67
  const OP_ENDIF := 0x68
  const OP_VERIFY := 0x69
  const OP_TOALTSTACK := 0x6b
  const OP_FROMALTSTACK := 0x6c
  const OP_2DROP := 0x6d
  const OP_2DUP := 0x6e
  const OP_3DUP := 0x6f
  const OP_2OVER := 0x70
  const OP_2ROT := 0x71
  const OP_2SWAP := 0x72
  const OP_IFDUP := 0x73
  const OP_DEPTH := 0x74
  const OP_DROP := 0x75
  const OP_DUP := 0x76
  const OP_NIP := 0x77
  const OP_OVER := 0x78
  const OP_PICK := 0x79
  const OP_ROLL := 0x7a
  const OP_ROT := 0x7b
  const OP_SWAP := 0x7c
  const OP_TUCK := 0x7d
  const OP_CAT := 0x7e
  const OP_RIGHT := 0x81
  const OP_SIZE := 0x82
  const OP_INVERT := 0x83
  const OP_XOR := 0x86
  const OP_EQUAL := 0x87
  const OP_EQUALVERIFY := 0x88
  const OP_1ADD := 0x8b
  const OP_1SUB := 0x8c
  const OP_2MUL := 0x8d
  const OP_2DIV := 0x8e
  const OP_NEGATE := 0x8f
  const OP_ABS := 0x90
  const OP_NOT := 0x91
  const OP_0NOTEQUAL := 0x92
  const OP_ADD := 0x93
  const OP_SUB := 0x94
  const OP_MUL := 0x95
  const OP_RSHIFT := 0x99
  const OP_BOOLAND := 0x9a
  const OP_BOOLOR := 0x9b
  const OP_NUMEQUAL := 0x9c
  const OP_NUMEQUALVERIFY := 0x9d
  const OP_NUMNOTEQUAL := 0x9e
  const OP_LESSTHAN := 0x9f
  const OP_GREATERTHAN := 0xa0
  const OP_LESSTHANOREQUAL := 0xa1
  const OP_GREATERTHANOREQUAL := 0xa2
  const OP_MIN := 0xa3
  const OP_MAX := 0xa4
  const OP_WITHIN := 0xa5
  const OP_RIPEMD160 := 0xa6
  const OP_HASH160 := 0xa9
  const OP_HASH256 := 0xaa
  const OP_CODESEPARATOR := 0xab
  const OP_CHECKSIG := 0xac
  const OP_CHECKSIGVERIFY := 0xad
  const OP_CHECKMULTISIG := 0xae
  const OP_CHECKMULTISIGVERIFY := 0xaf
  const OP_NOP1 := 0xb0
  const OP_CHECKLOCKTIMEVERIFY := 0xb1
  const OP_NOP10 := 0xb9
  const OP_CLAIM := 0xc8

  const MAX_SCRIPT := 10000
  const MAX_ELEMENT := 520
  const MAX_OPS := 201
  const MAX_STACK := 1000
  const MAX_KEYS := 20

  type Stack = seq<Bytes>

  /** One parsed operation and the position just after it in the script. */
  datatype Instr = Instr(code: int, data: Bytes, after: nat)

  /** The operations that can be read, and whether they reach the end of the script. */
  datatype Program = Program(ops: seq<Instr>, complete: bool)

  /** What the evaluator asks of the transaction, the hash functions and the verification flags. */
  datatype Env = Env(
    checkSig: (Bytes, Bytes, Bytes) -> bool,
    sigOk: Bytes -> bool,
    keyOk: Bytes -> bool,
    lockTimeOk: int -> bool,
    digest: (int, Bytes) -> Bytes,
    strict: bool,
    nullDummy: bool,
    discourageNops: bool,
    lockTime: bool)

  /** `checks` counts the calls to `CheckSig`. */
  datatype Machine = Machine(stack: Stack, alt: Stack, counted: nat, codeStart: nat, checks: nat)

  datatype Result = Ok(m: Machine) | Fail(performed: nat)

  function Checks(r: Result): nat {
    if r.Ok? then r.m.checks else r.performed
  }

  // ------------------------------------------------------------------ parsing

  function Parse(script: Bytes, pc: nat): Program
    requires pc <= |script|
    decreases |script| - pc
  {
    if pc == |script| then Program([], true)
    else
      var op := ReadOp(script[pc..]);
      if op.None? then Program([], false)
      else
        var after := pc + op.value.next;
        var rest := Parse(script, after);
        Program([Instr(op.value.code, op.value.data, after)] + rest.ops, rest.complete)
  }

  // ---------------------------------------------------------- stack operations

  function Top(s: Stack, k: nat): Bytes
    requires 1 <= k <= |s|
  {
    s[|s| - k]
  }

  function Drop(s: Stack, k: nat): Stack
    requires k <= |s|
  {
    s[..|s| - k]
  }

  function Flag(b: bool): Bytes {
    if b then [1] else []
  }

  function Pick(s: Stack, k: nat): Stack
    requires k < |s|
  {
    s + [Top(s, k + 1)]
  }

  function Roll(s: Stack, k: nat): Stack
    requires k < |s|
  {
    Drop(s, k + 1) + s[|s| - k..] + [Top(s, k + 1)]
  }

  function PickOrRoll(code: int, s: Stack): Option<Stack> {
    if |s| < 2 then None
    else
      var n := ToNumber(Top(s, 1), 4);
      var rest := Drop(s, 1);
      if n.None? || n.value < 0 || n.value >= |rest| then None
      else Some(if code == OP_ROLL then Roll(rest, n.value) else Pick(rest, n.value))
  }

  /** How deep each shuffle reaches. */
  function Reach(code: int): nat {
    match code
    case OP_3DUP | OP_ROT => 3
    case OP_2OVER | OP_2SWAP => 4
    case OP_2ROT => 6
    case OP_IFDUP | OP_DROP | OP_DUP => 1
    case OP_DEPTH => 0
    case _ => 2
  }

  predicate IsShuffle(code: int) {
    OP_2DROP <= code <= OP_TUCK
  }

  /** The operations that only move, copy or drop stack elements. */
  function Shuffle(code: int, s: Stack): Option<Stack>
    requires IsShuffle(code)
  {
    if |s| < Reach(code) then None
    else
      match code
      case OP_2DROP => Some(Drop(s, 2))
      case OP_2DUP => Some(s + [Top(s, 2), Top(s, 1)])
      case OP_3DUP => Some(s + [Top(s, 3), Top(s, 2), Top(s, 1)])
      case OP_2OVER => Some(s + [Top(s, 4), Top(s, 3)])
      case OP_2ROT => Some(Drop(s, 6) + s[|s| - 4..] + [Top(s, 6), Top(s, 5)])
      case OP_2SWAP => Some(Drop(s, 4) + [Top(s, 2), Top(s, 1), Top(s, 4), Top(s, 3)])
      case OP_IFDUP => Some(if ToBool(Top(s, 1)) then s + [Top(s, 1)] else s)
      case OP_DEPTH => Some(s + [Encode(|s|)])
      case OP_DROP => Some(Drop(s, 1))
      case OP_DUP => Some(s + [Top(s, 1)])
      case OP_NIP => Some(Drop(s, 2) + [Top(s, 1)])
      case OP_OVER => Some(s + [Top(s, 2)])
      case OP_PICK | OP_ROLL => PickOrRoll(code, s)
      case OP_ROT => Some(Drop(s, 3) + [Top(s, 2), Top(s, 1), Top(s, 3)])
      case OP_SWAP => Some(Drop(s, 2) + [Top(s, 1), Top(s, 2)])
      case _ => Some(Drop(s, 2) + [Top(s, 1), Top(s, 2), Top(s, 1)])
  }

  // --------------------------------------------------------------- arithmetic

  function Bool(b: bool): int {
    if b then 1 else 0
  }

  predicate IsUnary(code: int) {
    code == OP_1ADD || code == OP_1SUB || OP_NEGATE <= code <= OP_0NOTEQUAL
  }

  function Unary(code: int, n: int): int
    requires IsUnary(code)
  {
    match code
    case OP_1ADD => n + 1
    case OP_1SUB => n - 1
    case OP_NEGATE => -n
    case OP_ABS => if n < 0 then -n else n
    case OP_NOT => Bool(n == 0)
    case _ => Bool(n != 0)
  }

  predicate IsBinary(code: int) {
    code == OP_ADD || code == OP_SUB || OP_BOOLAND <= code <= OP_MAX
  }

  function Binary(code: int, a: int, b: int): int
    requires IsBinary(code)
  {
    match code
    case OP_ADD => a + b
    case OP_SUB => a - b
    case OP_BOOLAND => Bool(a != 0 && b != 0)
    case OP_BOOLOR => Bool(a != 0 || b != 0)
    case OP_NUMEQUAL | OP_NUMEQUALVERIFY => Bool(a == b)
    case OP_NUMNOTEQUAL => Bool(a != b)
    case OP_LESSTHAN => Bool(a < b)
    case OP_GREATERTHAN => Bool(a > b)
    case OP_LESSTHANOREQUAL => Bool(a <= b)
    case OP_GREATERTHANOREQUAL => Bool(a >= b)
    case OP_MIN => if a < b then a else b
    case _ => if a > b then a else b
  }

  function Arithmetic(code: int, s: Stack): Option<Stack>
    requires IsUnary(code) || IsBinary(code) || code == OP_WITHIN
  {
    if IsUnary(code) then
      if |s| < 1 then None
      else
        var n := ToNumber(Top(s, 1), 4);
        if n.None? then None else Some(Drop(s, 1) + [Encode(Unary(code, n.value))])
    else if IsBinary(code) then
      if |s| < 2 then None
      else
        var a, b := ToNumber(Top(s, 2), 4), ToNumber(Top(s, 1), 4);
        if a.None? || b.None? then None
        else
          var v := Encode(Binary(code, a.value, b.value));
          if code != OP_NUMEQUALVERIFY then Some(Drop(s, 2) + [v])
          else if ToBool(v) then Some(Drop(s, 2)) else None
    else
      if |s| < 3 then None
      else
        var x, low, high := ToNumber(Top(s, 3), 4), ToNumber(Top(s, 2), 4), ToNumber(Top(s, 1), 4);
        if x.None? || low.None? || high.None? then None
        else Some(Drop(s, 3) + [Flag(low.value <= x.value < high.value)])
  }

  // --------------------------------------------------------------- signatures

  /** The part of the script a signature covers, without the signatures themselves. */
  function SignedCode(script: Bytes, start: nat, sigs: seq<Bytes>): Bytes {
    EraseAll(if start <= |script| then script[start..] else [], sigs)
  }

  function EraseAll(code: Bytes, sigs: seq<Bytes>): Bytes
    decreases |sigs|
  {
    if sigs == [] then code else EraseAll(Erase(code, Push(sigs[0])), sigs[1..])
  }

  predicate Encoded(env: Env, sig: Bytes, key: Bytes) {
    env.sigOk(sig) && env.keyOk(key)
  }

  predicate Verifies(env: Env, code: Bytes, sig: Bytes, key: Bytes) {
    Encoded(env, sig, key) && env.checkSig(sig, key, code)
  }

  function CheckSigOp(env: Env, script: Bytes, code: int, m: Machine): Result {
    if |m.stack| < 2 then Fail(m.checks)
    else
      var sig, key := Top(m.stack, 2), Top(m.stack, 1);
      if env.strict && !Encoded(env, sig, key) then Fail(m.checks)
      else
        var ok := Verifies(env, SignedCode(script, m.codeStart, [sig]), sig, key);
        var checks := m.checks + if Encoded(env, sig, key) then 1 else 0;
        if code == OP_CHECKSIG then Ok(m.(stack := Drop(m.stack, 2) + [Flag(ok)], checks := checks))
        else if ok then Ok(m.(stack := Drop(m.stack, 2), checks := checks))
        else Fail(checks)
  }

  /** Outcome of the matching loop; `None` is a badly encoded signature or key under strict encoding. */
  datatype Verdict = Verdict(outcome: Option<bool>, checks: nat)

  /** The matching loop, over signatures and keys in the order it tries them. */
  function Match(env: Env, code: Bytes, sigs: seq<Bytes>, keys: seq<Bytes>): Verdict
    decreases |keys|
  {
    if sigs == [] then Verdict(Some(true), 0)
    else if |sigs| > |keys| then Verdict(Some(false), 0)
    else if env.strict && !Encoded(env, sigs[0], keys[0]) then Verdict(None, 0)
    else
      var v := Match(env, code, if Verifies(env, code, sigs[0], keys[0]) then sigs[1..] else sigs, keys[1..]);
      v.(checks := v.checks + if Encoded(env, sigs[0], keys[0]) then 1 else 0)
  }

  /** `n` elements from depth `k` downwards. */
  function Down(s: Stack, k: nat, n: nat): (r: Stack)
    requires 1 <= k && k + n <= |s| + 1
    ensures |r| == n
  {
    seq(n, i requires 0 <= i < n => s[|s| - k - i])
  }

  /** The operands of CHECKMULTISIG; `used` includes the extra element below them. */
  datatype Operands = Operands(sigs: seq<Bytes>, keys: seq<Bytes>, used: nat)

  function MultisigOperands(s: Stack, counted: nat): (r: Option<Operands>)
    ensures r.Some? ==> |r.value.sigs| <= |r.value.keys| <= MAX_KEYS && counted + |r.value.keys| <= MAX_OPS
    ensures r.Some? ==> r.value.used == |r.value.sigs| + |r.value.keys| + 3 <= |s|
  {
    if |s| < 1 then None
    else
      var n := ToNumber(Top(s, 1), 4);
      if n.None? || n.value < 0 || n.value > MAX_KEYS || counted + n.value > MAX_OPS || |s| < n.value + 2 then None
      else
        var k := ToNumber(Top(s, n.value + 2), 4);
        if k.None? || k.value < 0 || k.value > n.value || |s| < n.value + k.value + 3 then None
        else Some(Operands(Down(s, n.value + 3, k.value), Down(s, 2, n.value), n.value + k.value + 3))
  }

  function CheckMultisigOp(env: Env, script: Bytes, code: int, m: Machine): Result {
    var o := MultisigOperands(m.stack, m.counted);
    if o.None? then Fail(m.checks)
    else
      var Operands(sigs, keys, used) := o.value;
      var v := Match(env, SignedCode(script, m.codeStart, sigs), sigs, keys);
      var checks := m.checks + v.checks;
      if v.outcome.None? || (env.nullDummy && Top(m.stack, used) != []) then Fail(checks)
      else
        var m' := m.(stack := Drop(m.stack, used), counted := m.counted + |keys|, checks := checks);
        if code == OP_CHECKMULTISIG then Ok(m'.(stack := m'.stack + [Flag(v.outcome.value)]))
        else if v.outcome.value then Ok(m') else Fail(checks)
  }

  // ---------------------------------------------------------- one operation

  function OnStack(m: Machine, s: Option<Stack>): Result {
    if s.None? then Fail(m.checks) else Ok(m.(stack := s.value))
  }

  predicate IsSmallInt(code: int) {
    code == OP_1NEGATE || OP_1 <= code <= OP_16
  }

  function LockTimeOp(env: Env, m: Machine): Result {
    if !env.lockTime then (if env.discourageNops then Fail(m.checks) else Ok(m))
    else if |m.stack| < 1 then Fail(m.checks)
    else
      var n := ToNumber(Top(m.stack, 1), 5);
      if n.None? || n.value < 0 || !env.lockTimeOk(n.value) then Fail(m.checks) else Ok(m)
  }

  /** Executed operations that are neither data pushes nor block delimiters; unknown ones fail. */
  function Execute(env: Env, script: Bytes, op: Instr, m: Machine): Result {
    var code, s := op.code, m.stack;
    if IsSmallInt(code) then Ok(m.(stack := s + [Encode(code - (OP_1 - 1))]))
    else if code == OP_NOP then Ok(m)
    else if code == OP_CHECKLOCKTIMEVERIFY then LockTimeOp(env, m)
    else if OP_NOP1 <= code <= OP_NOP10 then (if env.discourageNops then Fail(m.checks) else Ok(m))
    else if code == OP_CLAIM then
      OnStack(m, if |s| != 3 || |Top(s, 1)| != 41 then None else Some(Drop(s, 1)))
    else if code == OP_VERIFY then
      OnStack(m, if |s| < 1 || !ToBool(Top(s, 1)) then None else Some(Drop(s, 1)))
    else if code == OP_TOALTSTACK then
      if |s| < 1 then Fail(m.checks) else Ok(m.(stack := Drop(s, 1), alt := m.alt + [Top(s, 1)]))
    else if code == OP_FROMALTSTACK then
      if |m.alt| < 1 then Fail(m.checks) else Ok(m.(stack := s + [Top(m.alt, 1)], alt := Drop(m.alt, 1)))
    else if IsShuffle(code) then OnStack(m, Shuffle(code, s))
    else if code == OP_SIZE then OnStack(m, if |s| < 1 then None else Some(s + [Encode(|Top(s, 1)|)]))
    else if code == OP_EQUAL then
      OnStack(m, if |s| < 2 then None else Some(Drop(s, 2) + [Flag(Top(s, 2) == Top(s, 1))]))
    else if code == OP_EQUALVERIFY then
      OnStack(m, if |s| < 2 || Top(s, 2) != Top(s, 1) then None else Some(Drop(s, 2)))
    else if IsUnary(code) || IsBinary(code) || code == OP_WITHIN then OnStack(m, Arithmetic(code, s))
    else if OP_RIPEMD160 <= code <= OP_HASH256 then
      OnStack(m, if |s| < 1 then None else Some(Drop(s, 1) + [env.digest(code, Top(s, 1))]))
    else if code == OP_CODESEPARATOR then Ok(m.(codeStart := op.after))
    else if code == OP_CHECKSIG || code == OP_CHECKSIGVERIFY then CheckSigOp(env, script, code, m)
    else if code == OP_CHECKMULTISIG || code == OP_CHECKMULTISIGVERIFY then CheckMultisigOp(env, script, code, m)
    else Fail(m.checks)
  }

  // ----------------------------------------------------------------- one turn

  predicate Disabled(code: int) {
    || OP_CAT <= code <= OP_RIGHT
    || OP_INVERT <= code <= OP_XOR
    || code == OP_2MUL || code == OP_2DIV
    || OP_MUL <= code <= OP_RSHIFT
  }

  /** The checks made on every operation, skipped or not; operations above OP_16 are counted. */
  function Guard(op: Instr, m: Machine): Result {
    var m' := if op.code > OP_16 then m.(counted := m.counted + 1) else m;
    if |op.data| > MAX_ELEMENT || (op.code > OP_16 && m'.counted > MAX_OPS) || Disabled(op.code) then Fail(m.checks)
    else Ok(m')
  }

  function Limit(r: Result): Result {
    if r.Ok? && |r.m.stack| + |r.m.alt| > MAX_STACK then Fail(r.m.checks) else r
  }

  /** Machine and flag stack after a turn, or the number of checks when the script fails. */
  datatype Turned = Run(m: Machine, flags: seq<bool>) | Stop(performed: nat)

  function Keep(r: Result, flags: seq<bool>): Turned {
    var l := Limit(r);
    if l.Ok? then Run(l.m, flags) else Stop(l.performed)
  }

  predicate Executing(flags: seq<bool>) {
    false !in flags
  }

  function Last(flags: seq<bool>): bool
    requires flags != []
  {
    flags[|flags| - 1]
  }

  function Front(flags: seq<bool>): seq<bool>
    requires flags != []
  {
    flags[..|flags| - 1]
  }

  /** One pass through the loop of `EvalScript`. */
  function Turn(env: Env, script: Bytes, op: Instr, m0: Machine, flags: seq<bool>): Turned {
    var g := Guard(op, m0);
    if g.Fail? then Stop(g.performed)
    else
      var m, code, exec := g.m, op.code, Executing(flags);
      if exec && 0 <= code <= OP_PUSHDATA4 then Keep(Ok(m.(stack := m.stack + [op.data])), flags)
      else if !exec && !(OP_IF <= code <= OP_ENDIF) then Keep(Ok(m), flags)
      else if code == OP_IF || code == OP_NOTIF then
        if !exec then Keep(Ok(m), flags + [false])
        else if |m.stack| < 1 then Stop(m.checks)
        else Keep(Ok(m.(stack := Drop(m.stack, 1))), flags + [ToBool(Top(m.stack, 1)) != (code == OP_NOTIF)])
      else if code == OP_ELSE then
        if flags == [] then Stop(m.checks) else Keep(Ok(m), Front(flags) + [!Last(flags)])
      else if code == OP_ENDIF then
        if flags == [] then Stop(m.checks) else Keep(Ok(m), Front(flags))
      else Keep(Execute(env, script, op, m), flags)
  }

  /** The whole loop over the remaining operations. */
  function Loop(env: Env, script: Bytes, p: Program, m: Machine, flags: seq<bool>): Result
    decreases |p.ops|
  {
    if p.ops == [] then (if p.complete && flags == [] then Ok(m) else Fail(m.checks))
    else
      match Turn(env, script, p.ops[0], m, flags)
      case Stop(performed) => Fail(performed)
      case Run(m', flags') => Loop(env, script, p.(ops := p.ops[1..]), m', flags')
  }

  function Start(stack: Stack): Machine {
    Machine(stack, [], 0, 0, 0)
  }

  function Eval(env: Env, script: Bytes, stack: Stack): Result {
    if |script| > MAX_SCRIPT then Fail(0) else Loop(env, script, Parse(script, 0), Start(stack), [])
  }
}
