/** IF blocks as trees, and the flat evaluator as a run over the tree. */
module ScriptStructure {
  import opened Basics
  import opened ScriptCodec
  import opened ScriptNum
  import opened ScriptMachine
  import opened ScriptEval

  datatype Block = Done | Then(item: Item, rest: Block)

  datatype Item = Plain(op: Instr) | Cond(open: Instr, body: Block, alts: Alts)

  /** What follows the first branch: any number of ELSE branches, then ENDIF. */
  datatype Alts = End(close: Instr) | Else(op: Instr, body: Block, rest: Alts)

  predicate Opens(code: int) {
    code == OP_IF || code == OP_NOTIF
  }

  predicate Delimits(code: int) {
    Opens(code) || code == OP_ELSE || code == OP_ENDIF
  }

  // ------------------------------------------------ running a tree of blocks

  /** An operation outside the four delimiters; the two reserved ones between them fail even when skipped. */
  function Step(env: Env, script: Bytes, exec: bool, op: Instr, m: Machine): Result {
    var g := Guard(op, m);
    if g.Fail? then g
    else if exec && 0 <= op.code <= OP_PUSHDATA4 then Limit(Ok(g.m.(stack := g.m.stack + [op.data])))
    else if exec || OP_IF <= op.code <= OP_ENDIF then Limit(Execute(env, script, op, g.m))
    else Limit(g)
  }

  function RunBlock(env: Env, script: Bytes, exec: bool, b: Block, m: Machine): Result
    decreases b
  {
    match b
    case Done => Ok(m)
    case Then(item, rest) =>
      var r := RunItem(env, script, exec, item, m);
      if r.Fail? then r else RunBlock(env, script, exec, rest, r.m)
  }

  /** A block takes its condition off the stack when it is executed; a skipped one runs nothing of either branch. */
  function RunItem(env: Env, script: Bytes, exec: bool, item: Item, m: Machine): Result
    decreases item
  {
    match item
    case Plain(op) => Step(env, script, exec, op, m)
    case Cond(open, body, alts) =>
      var g := Guard(open, m);
      if g.Fail? then g
      else if exec && |g.m.stack| < 1 then Fail(g.m.checks)
      else
        var value := exec && ToBool(Top(g.m.stack, 1)) != (open.code == OP_NOTIF);
        var r := Limit(Ok(if exec then g.m.(stack := Drop(g.m.stack, 1)) else g.m));
        if r.Fail? then r
        else
          var first := RunBlock(env, script, exec && value, body, r.m);
          if first.Fail? then first else RunAlts(env, script, exec, value, alts, first.m)
  }

  /** Each ELSE switches between running and skipping. */
  function RunAlts(env: Env, script: Bytes, exec: bool, value: bool, alts: Alts, m: Machine): Result
    decreases alts
  {
    match alts
    case End(close) => Limit(Guard(close, m))
    case Else(op, body, rest) =>
      var g := Limit(Guard(op, m));
      if g.Fail? then g
      else
        var r := RunBlock(env, script, exec && !value, body, g.m);
        if r.Fail? then r else RunAlts(env, script, exec, !value, rest, r.m)
  }

  // ------------------------------------------------------- trees and op lists

  predicate WellFormed(b: Block) {
    match b
    case Done => true
    case Then(item, rest) => WellFormedItem(item) && WellFormed(rest)
  }

  predicate WellFormedItem(item: Item) {
    match item
    case Plain(op) => !Delimits(op.code)
    case Cond(open, body, alts) => Opens(open.code) && WellFormed(body) && WellFormedAlts(alts)
  }

  predicate WellFormedAlts(alts: Alts) {
    match alts
    case End(close) => close.code == OP_ENDIF
    case Else(op, body, rest) => op.code == OP_ELSE && WellFormed(body) && WellFormedAlts(rest)
  }

  function Ops(b: Block): seq<Instr> {
    match b
    case Done => []
    case Then(item, rest) => ItemOps(item) + Ops(rest)
  }

  function ItemOps(item: Item): seq<Instr> {
    match item
    case Plain(op) => [op]
    case Cond(open, body, alts) => [open] + Ops(body) + AltsOps(alts)
  }

  function AltsOps(alts: Alts): seq<Instr> {
    match alts
    case End(close) => [close]
    case Else(op, body, rest) => [op] + Ops(body) + AltsOps(rest)
  }

  function Size(b: Block): nat {
    match b
    case Done => 0
    case Then(item, rest) => 1 + ItemSize(item) + Size(rest)
  }

  function ItemSize(item: Item): nat {
    match item
    case Plain(op) => 0
    case Cond(open, body, alts) => 2 + Size(body) + AltsSize(alts)
  }

  function AltsSize(alts: Alts): nat {
    match alts
    case End(close) => 0
    case Else(op, body, rest) => 2 + Size(body) + AltsSize(rest)
  }

  // ------------------------------------------------------------- refinement

  /** The flat loop on `ops` and then on the rest of the program. */
  function Flat(env: Env, script: Bytes, ops: seq<Instr>, p: Program, m: Machine, flags: seq<bool>): Result {
    Loop(env, script, Program(ops + p.ops, p.complete), m, flags)
  }

  /** Continue with the rest of the program when a part has run. */
  function After(env: Env, script: Bytes, p: Program, r: Result, flags: seq<bool>): Result {
    if r.Fail? then r else Loop(env, script, p, r.m, flags)
  }

  lemma FlatStep(env: Env, script: Bytes, op: Instr, ops: seq<Instr>, p: Program, m: Machine, flags: seq<bool>)
    ensures
      var t := Turn(env, script, op, m, flags);
      Flat(env, script, [op] + ops, p, m, flags) ==
        if t.Stop? then Fail(t.performed) else Flat(env, script, ops, p, t.m, t.flags)
  {
    hide Turn, Loop;
    var all := ([op] + ops) + p.ops;
    LoopStep(env, script, Program(all, p.complete), m, flags);
    assert all[1..] == ops + p.ops;
  }

  lemma FlatSplit(env: Env, script: Bytes, a: seq<Instr>, b: seq<Instr>, p: Program, m: Machine, flags: seq<bool>)
    ensures Flat(env, script, a + b, p, m, flags) == Flat(env, script, a, Program(b + p.ops, p.complete), m, flags)
  {
    hide Loop;
    assert (a + b) + p.ops == a + (b + p.ops);
  }

  lemma FlatNone(env: Env, script: Bytes, p: Program, m: Machine, flags: seq<bool>)
    ensures Flat(env, script, [], p, m, flags) == Loop(env, script, p, m, flags)
  {
    hide Loop;
    assert [] + p.ops == p.ops;
  }

  lemma TurnPlain(env: Env, script: Bytes, op: Instr, m: Machine, flags: seq<bool>)
    requires !Delimits(op.code)
    ensures
      var t, r := Turn(env, script, op, m, flags), Step(env, script, Executing(flags), op, m);
      t == if r.Ok? then Run(r.m, flags) else Stop(r.performed)
  {
    hide Execute, Executing, Disabled;
  }

  lemma TurnOpen(env: Env, script: Bytes, op: Instr, m: Machine, flags: seq<bool>)
    requires Opens(op.code)
    ensures
      var t, g, exec := Turn(env, script, op, m, flags), Guard(op, m), Executing(flags);
      if g.Fail? then t == Stop(g.performed)
      else if exec && |g.m.stack| < 1 then t == Stop(g.m.checks)
      else
        var value := exec && ToBool(Top(g.m.stack, 1)) != (op.code == OP_NOTIF);
        t == Keep(Ok(if exec then g.m.(stack := Drop(g.m.stack, 1)) else g.m), flags + [value])
  {
    hide Execute, Executing, Disabled, ToBool;
  }

  lemma TurnClose(env: Env, script: Bytes, op: Instr, m: Machine, flags: seq<bool>, value: bool)
    requires op.code == OP_ELSE || op.code == OP_ENDIF
    ensures
      var t, r := Turn(env, script, op, m, flags + [value]), Limit(Guard(op, m));
      t == if r.Fail? then Stop(r.performed) else Run(r.m, if op.code == OP_ELSE then flags + [!value] else flags)
  {
    hide Execute, Executing, Disabled;
    var pushed := flags + [value];
    assert Front(pushed) == flags && Last(pushed) == value;
  }

  lemma ExecutingPushed(flags: seq<bool>, value: bool)
    ensures Executing(flags + [value]) == (Executing(flags) && value)
  {
    assert forall x :: x in flags ==> x in flags + [value];
    assert value in flags + [value] by {
      assert (flags + [value])[|flags|] == value;
    }
  }

  lemma {:induction false} BlockRefines(env: Env, script: Bytes, b: Block, p: Program, m: Machine, flags: seq<bool>)
    requires WellFormed(b)
    ensures Flat(env, script, Ops(b), p, m, flags) ==
              After(env, script, p, RunBlock(env, script, Executing(flags), b, m), flags)
    decreases Size(b)
  {
    hide Flat, Loop, Executing, RunItem, ItemOps;
    match b
    case Done => FlatNone(env, script, p, m, flags);
    case Then(item, rest) =>
      var q := Program(Ops(rest) + p.ops, p.complete);
      FlatSplit(env, script, ItemOps(item), Ops(rest), p, m, flags);
      ItemRefines(env, script, item, q, m, flags);
      var r := RunItem(env, script, Executing(flags), item, m);
      if r.Ok? {
        FlatIs(env, script, Ops(rest), p, r.m, flags);
        BlockRefines(env, script, rest, p, r.m, flags);
      }
  }

  lemma FlatIs(env: Env, script: Bytes, ops: seq<Instr>, p: Program, m: Machine, flags: seq<bool>)
    ensures Flat(env, script, ops, p, m, flags) == Loop(env, script, Program(ops + p.ops, p.complete), m, flags)
  {
    hide Loop;
  }

  lemma {:induction false} ItemRefines(env: Env, script: Bytes, item: Item, p: Program, m: Machine, flags: seq<bool>)
    requires WellFormedItem(item)
    ensures Flat(env, script, ItemOps(item), p, m, flags) ==
              After(env, script, p, RunItem(env, script, Executing(flags), item, m), flags)
    decreases ItemSize(item)
  {
    hide Flat, Loop, Executing, RunBlock, RunAlts, Turn, Step, Guard, ToBool, Ops, AltsOps;
    match item
    case Plain(op) =>
      TurnPlain(env, script, op, m, flags);
      assert [op] + [] == [op];
      FlatStep(env, script, op, [], p, m, flags);
      var r := Step(env, script, Executing(flags), op, m);
      if r.Ok? {
        FlatNone(env, script, p, r.m, flags);
      }
    case Cond(open, body, alts) =>
      assert ([open] + Ops(body)) + AltsOps(alts) == [open] + (Ops(body) + AltsOps(alts));
      TurnOpen(env, script, open, m, flags);
      FlatStep(env, script, open, Ops(body) + AltsOps(alts), p, m, flags);
      var t := Turn(env, script, open, m, flags);
      if t.Run? {
        var value := t.flags[|flags|];
        assert t.flags == flags + [value];
        BodyRefines(env, script, body, alts, p, t.m, flags, value);
      }
  }

  /** A branch and what follows it, with the branch's flag on the flag stack. */
  lemma {:induction false} BodyRefines(
    env: Env, script: Bytes, body: Block, alts: Alts, p: Program, m: Machine, flags: seq<bool>, value: bool)
    requires WellFormed(body) && WellFormedAlts(alts)
    ensures
      var first := RunBlock(env, script, Executing(flags) && value, body, m);
      Flat(env, script, Ops(body) + AltsOps(alts), p, m, flags + [value]) ==
        if first.Fail? then first
        else After(env, script, p, RunAlts(env, script, Executing(flags), value, alts, first.m), flags)
    decreases 1 + Size(body) + AltsSize(alts)
  {
    hide Flat, Loop, Executing, RunBlock, RunAlts, Ops, AltsOps;
    var q := Program(AltsOps(alts) + p.ops, p.complete);
    FlatSplit(env, script, Ops(body), AltsOps(alts), p, m, flags + [value]);
    ExecutingPushed(flags, value);
    BlockRefines(env, script, body, q, m, flags + [value]);
    var first := RunBlock(env, script, Executing(flags) && value, body, m);
    if first.Ok? {
      FlatIs(env, script, AltsOps(alts), p, first.m, flags + [value]);
      AltsRefines(env, script, alts, p, first.m, flags, value);
    }
  }

  lemma {:induction false} AltsRefines(
    env: Env, script: Bytes, alts: Alts, p: Program, m: Machine, flags: seq<bool>, value: bool)
    requires WellFormedAlts(alts)
    ensures Flat(env, script, AltsOps(alts), p, m, flags + [value]) ==
              After(env, script, p, RunAlts(env, script, Executing(flags), value, alts, m), flags)
    decreases AltsSize(alts)
  {
    hide Flat, Loop, Executing, RunBlock, Turn, Guard, Limit, Ops;
    match alts
    case End(close) =>
      TurnClose(env, script, close, m, flags, value);
      assert [close] + [] == [close];
      FlatStep(env, script, close, [], p, m, flags + [value]);
      var r := Limit(Guard(close, m));
      if r.Ok? {
        FlatNone(env, script, p, r.m, flags);
      }
    case Else(op, body, rest) =>
      TurnClose(env, script, op, m, flags, value);
      assert ([op] + Ops(body)) + AltsOps(rest) == [op] + (Ops(body) + AltsOps(rest));
      FlatStep(env, script, op, Ops(body) + AltsOps(rest), p, m, flags + [value]);
      var r := Limit(Guard(op, m));
      if r.Ok? {
        BodyRefines(env, script, body, rest, p, r.m, flags, !value);
      }
  }

  // ------------------------------------------------------------ balanced blocks

  datatype Read<T> = Read(tree: T, rest: seq<Instr>)

  /** The longest run of whole items: up to the end, or to an ELSE or ENDIF of an enclosing block. */
  function ReadBlock(ops: seq<Instr>): (r: Option<Read<Block>>)
    ensures r.Some? ==> |r.value.rest| <= |ops|
    decreases |ops|, 1
  {
    if ops == [] || ops[0].code == OP_ELSE || ops[0].code == OP_ENDIF then Some(Read(Done, ops))
    else if Opens(ops[0].code) then
      var body := ReadBlock(ops[1..]);
      if body.None? then None
      else
        var alts := ReadAlts(body.value.rest);
        if alts.None? then None
        else
          var rest := ReadBlock(alts.value.rest);
          if rest.None? then None
          else Some(Read(Then(Cond(ops[0], body.value.tree, alts.value.tree), rest.value.tree), rest.value.rest))
    else
      var rest := ReadBlock(ops[1..]);
      if rest.None? then None else Some(Read(Then(Plain(ops[0]), rest.value.tree), rest.value.rest))
  }

  function ReadAlts(ops: seq<Instr>): (r: Option<Read<Alts>>)
    ensures r.Some? ==> |r.value.rest| < |ops|
    decreases |ops|, 0
  {
    if ops == [] then None
    else if ops[0].code == OP_ENDIF then Some(Read(End(ops[0]), ops[1..]))
    else if ops[0].code == OP_ELSE then
      var body := ReadBlock(ops[1..]);
      if body.None? then None
      else
        var rest := ReadAlts(body.value.rest);
        if rest.None? then None
        else Some(Read(Else(ops[0], body.value.tree, rest.value.tree), rest.value.rest))
    else None
  }

  /** The tree of a whole operation list, if its blocks are balanced. */
  function Structure(ops: seq<Instr>): Option<Block> {
    var r := ReadBlock(ops);
    if r.Some? && r.value.rest == [] then Some(r.value.tree) else None
  }

  /** Every ELSE and ENDIF has an open block, and every block is closed. */
  predicate Balanced(ops: seq<Instr>, depth: nat) {
    if ops == [] then depth == 0
    else if Opens(ops[0].code) then Balanced(ops[1..], depth + 1)
    else if ops[0].code == OP_ELSE then depth > 0 && Balanced(ops[1..], depth)
    else if ops[0].code == OP_ENDIF then depth > 0 && Balanced(ops[1..], depth - 1)
    else Balanced(ops[1..], depth)
  }

  /** Reading a tree loses no operation. */
  lemma {:induction false} ReadBlockOps(ops: seq<Instr>)
    ensures
      var r := ReadBlock(ops);
      r.Some? ==> WellFormed(r.value.tree) && Ops(r.value.tree) + r.value.rest == ops
    decreases |ops|, 1
  {
    hide Ops, AltsOps, Size;
    OpsDone();
    assert [] + ops == ops;
    var r := ReadBlock(ops);
    if ops != [] && r.Some? {
      var rest := ops[1..];
      assert [ops[0]] + rest == ops;
      if Opens(ops[0].code) {
        var body := ReadBlock(rest).value;
        var alts := ReadAlts(body.rest).value;
        var more := ReadBlock(alts.rest).value;
        ReadBlockOps(rest);
        ReadAltsOps(body.rest);
        ReadBlockOps(alts.rest);
        CondOps(ops[0], body, alts, more);
      } else if ops[0].code != OP_ELSE && ops[0].code != OP_ENDIF {
        ReadBlockOps(rest);
        PlainOps(ops[0], ReadBlock(rest).value);
      }
    }
  }

  lemma OpsDone()
    ensures Ops(Done) == []
  {
  }

  lemma PlainOps(op: Instr, more: Read<Block>)
    ensures Ops(Then(Plain(op), more.tree)) + more.rest == [op] + (Ops(more.tree) + more.rest)
  {
  }

  lemma CondOps(open: Instr, body: Read<Block>, alts: Read<Alts>, more: Read<Block>)
    requires AltsOps(alts.tree) + alts.rest == body.rest && Ops(more.tree) + more.rest == alts.rest
    ensures Ops(Then(Cond(open, body.tree, alts.tree), more.tree)) + more.rest == [open] + (Ops(body.tree) + body.rest)
  {
    Regroup([open], Ops(body.tree), AltsOps(alts.tree), Ops(more.tree), more.rest);
  }

  lemma EndOps(close: Instr)
    ensures AltsOps(End(close)) == [close]
  {
  }

  lemma ElseOps(op: Instr, body: Read<Block>, more: Read<Alts>)
    requires AltsOps(more.tree) + more.rest == body.rest
    ensures AltsOps(Else(op, body.tree, more.tree)) + more.rest == [op] + (Ops(body.tree) + body.rest)
  {
    Regroup([op], Ops(body.tree), AltsOps(more.tree), [], more.rest);
  }

  lemma Regroup<T>(a: seq<T>, b: seq<T>, c: seq<T>, d: seq<T>, e: seq<T>)
    ensures (((a + b) + c) + d) + e == a + (b + (c + (d + e)))
  {
  }

  lemma {:induction false} ReadAltsOps(ops: seq<Instr>)
    ensures
      var r := ReadAlts(ops);
      r.Some? ==> WellFormedAlts(r.value.tree) && AltsOps(r.value.tree) + r.value.rest == ops
    decreases |ops|, 0
  {
    hide Ops, AltsOps, Size, AltsSize;
    var r := ReadAlts(ops);
    if ops != [] && r.Some? {
      EndOps(ops[0]);
      var rest := ops[1..];
      assert [ops[0]] + rest == ops;
      if ops[0].code == OP_ELSE {
        var body := ReadBlock(rest).value;
        var more := ReadAlts(body.rest).value;
        ReadBlockOps(rest);
        ReadAltsOps(body.rest);
        ElseOps(ops[0], body, more);
      }
    }
  }

  /** With balanced operations, reading never fails and stops at the delimiter of the open block. */
  lemma {:induction false} BalancedReads(ops: seq<Instr>, depth: nat)
    requires Balanced(ops, depth)
    ensures
      var r := ReadBlock(ops);
      && r.Some? && Balanced(r.value.rest, depth) && (depth == 0 ==> r.value.rest == [])
      && (depth > 0 ==> r.value.rest != [] && r.value.rest[0].code in {OP_ELSE, OP_ENDIF})
    decreases |ops|, 1
  {
    if ops != [] && Opens(ops[0].code) {
      BalancedReads(ops[1..], depth + 1);
      var body := ReadBlock(ops[1..]).value;
      BalancedAlts(body.rest, depth + 1);
      BalancedReads(ReadAlts(body.rest).value.rest, depth);
    } else if ops != [] && ops[0].code != OP_ELSE && ops[0].code != OP_ENDIF {
      BalancedReads(ops[1..], depth);
    }
  }

  lemma {:induction false} BalancedAlts(ops: seq<Instr>, depth: nat)
    requires depth > 0 && Balanced(ops, depth) && ops != [] && ops[0].code in {OP_ELSE, OP_ENDIF}
    ensures ReadAlts(ops).Some? && Balanced(ReadAlts(ops).value.rest, depth - 1)
    decreases |ops|, 0
  {
    if ops[0].code == OP_ELSE {
      BalancedReads(ops[1..], depth);
      BalancedAlts(ReadBlock(ops[1..]).value.rest, depth);
    }
  }

  lemma {:induction false} TreesBalance(b: Block, tail: seq<Instr>, depth: nat)
    requires WellFormed(b)
    ensures Balanced(Ops(b) + tail, depth) == Balanced(tail, depth)
    decreases Size(b)
  {
    match b
    case Done => assert [] + tail == tail;
    case Then(item, rest) =>
      assert Ops(b) + tail == ItemOps(item) + (Ops(rest) + tail);
      ItemBalances(item, Ops(rest) + tail, depth);
      TreesBalance(rest, tail, depth);
  }

  lemma {:induction false} ItemBalances(item: Item, tail: seq<Instr>, depth: nat)
    requires WellFormedItem(item)
    ensures Balanced(ItemOps(item) + tail, depth) == Balanced(tail, depth)
    decreases ItemSize(item)
  {
    match item
    case Plain(op) => assert ([op] + tail)[1..] == tail;
    case Cond(open, body, alts) =>
      assert (ItemOps(item) + tail)[1..] == Ops(body) + (AltsOps(alts) + tail);
      TreesBalance(body, AltsOps(alts) + tail, depth + 1);
      AltsBalance(alts, tail, depth);
  }

  lemma {:induction false} AltsBalance(alts: Alts, tail: seq<Instr>, depth: nat)
    requires WellFormedAlts(alts)
    ensures Balanced(AltsOps(alts) + tail, depth + 1) == Balanced(tail, depth)
    decreases AltsSize(alts)
  {
    match alts
    case End(close) => assert ([close] + tail)[1..] == tail;
    case Else(op, body, rest) =>
      var all := AltsOps(alts) + tail;
      assert all[1..] == Ops(body) + (AltsOps(rest) + tail);
      TreesBalance(body, AltsOps(rest) + tail, depth + 1);
      AltsBalance(rest, tail, depth);
  }

  /** An operation list has a tree exactly when its blocks are balanced, and the tree spells it. */
  lemma StructureIffBalanced(ops: seq<Instr>)
    ensures Structure(ops).Some? <==> Balanced(ops, 0)
    ensures Structure(ops).Some? ==> WellFormed(Structure(ops).value) && Ops(Structure(ops).value) == ops
  {
    hide ReadBlock, Ops, WellFormed;
    ReadBlockOps(ops);
    if Balanced(ops, 0) {
      BalancedReads(ops, 0);
    }
    if Structure(ops).Some? {
      var b := Structure(ops).value;
      assert Ops(b) + [] == Ops(b);
      TreesBalance(b, [], 0);
      assert Balanced([], 0);
    }
  }

  /** Whatever the branches do, an accepted run opens and closes its blocks in balance. */
  lemma {:induction false} AcceptedBalanced(env: Env, script: Bytes, p: Program, m: Machine, flags: seq<bool>)
    requires Loop(env, script, p, m, flags).Ok?
    ensures p.complete && Balanced(p.ops, |flags|)
    decreases |p.ops|
  {
    hide Turn;
    if p.ops != [] {
      var t := Turn(env, script, p.ops[0], m, flags);
      TurnDepth(env, script, p.ops[0], m, flags);
      AcceptedBalanced(env, script, p.(ops := p.ops[1..]), t.m, t.flags);
    }
  }

  lemma TurnDepth(env: Env, script: Bytes, op: Instr, m: Machine, flags: seq<bool>)
    ensures
      var t := Turn(env, script, op, m, flags);
      t.Run? ==>
        if Opens(op.code) then |t.flags| == |flags| + 1
        else if op.code == OP_ELSE then |t.flags| == |flags| > 0
        else if op.code == OP_ENDIF then |t.flags| == |flags| - 1
        else |t.flags| == |flags|
  {
    hide Execute, Guard, Executing, ToBool;
  }

  /**
   * `EvalScript` is the run over the tree of blocks: the same result where the blocks balance, and
   * a rejection where they do not or where the script cannot be read to its end.
   */
  lemma EvalIsStructured(env: Env, script: Bytes, stack: Stack)
    requires |script| <= MAX_SCRIPT
    ensures
      var p := Parse(script, 0);
      var r := Eval(env, script, stack);
      match Structure(p.ops)
      case None => !Balanced(p.ops, 0) && r.Fail?
      case Some(b) =>
        var t := RunBlock(env, script, true, b, Start(stack));
        && Balanced(p.ops, 0)
        && (t.Fail? ==> r == t)
        && (t.Ok? ==> r == if p.complete then t else Fail(t.m.checks))
  {
    hide Structure, Loop, Balanced, RunBlock, Parse;
    var p := Parse(script, 0);
    StructureIffBalanced(p.ops);
    match Structure(p.ops)
    case None =>
      if Eval(env, script, stack).Ok? {
        AcceptedBalanced(env, script, p, Start(stack), []);
      }
    case Some(b) =>
      var none := Program([], p.complete);
      assert Executing([]);
      BlockRefines(env, script, b, none, Start(stack), []);
      assert p.ops + [] == p.ops;
      FlatIs(env, script, p.ops, none, Start(stack), []);
      var t := RunBlock(env, script, true, b, Start(stack));
      if t.Ok? {
        LoopEnds(env, script, p.complete, t.m, []);
      }
  }

  // ------------------------------------------------------- which branch is run

  /** Two machines that differ in the number of operations counted at most. */
  ghost predicate Same(m: Machine, n: Machine) {
    m.stack == n.stack && m.alt == n.alt && m.codeStart == n.codeStart && m.checks == n.checks
  }

  lemma StepSkips(env: Env, script: Bytes, op: Instr, m: Machine)
    requires !Delimits(op.code)
    ensures
      var r := Step(env, script, false, op, m);
      r.Ok? ==> Same(r.m, m)
  {
    hide Disabled;
    if OP_IF <= op.code <= OP_ENDIF {
      ReservedFails(env, script, op, m);
    }
  }

  lemma ReservedFails(env: Env, script: Bytes, op: Instr, m: Machine)
    requires OP_IF <= op.code <= OP_ENDIF && !Delimits(op.code)
    ensures Step(env, script, false, op, m).Fail?
  {
  }

  /** Skipped code changes nothing but the count of operations. */
  lemma {:induction false} SkipsBlock(env: Env, script: Bytes, b: Block, m: Machine)
    requires WellFormed(b)
    ensures
      var r := RunBlock(env, script, false, b, m);
      r.Ok? ==> Same(r.m, m)
    decreases b
  {
    match b
    case Done =>
    case Then(item, rest) =>
      SkipsItem(env, script, item, m);
      var r := RunItem(env, script, false, item, m);
      if r.Ok? {
        SkipsBlock(env, script, rest, r.m);
      }
  }

  lemma {:induction false} SkipsItem(env: Env, script: Bytes, item: Item, m: Machine)
    requires WellFormedItem(item)
    ensures
      var r := RunItem(env, script, false, item, m);
      r.Ok? ==> Same(r.m, m)
    decreases item
  {
    hide Step, Disabled;
    match item
    case Plain(op) => StepSkips(env, script, op, m);
    case Cond(open, body, alts) =>
      var g := Guard(open, m);
      if g.Ok? && Limit(g).Ok? {
        SkipsBlock(env, script, body, g.m);
        var first := RunBlock(env, script, false, body, g.m);
        if first.Ok? {
          SkipsAlts(env, script, false, alts, first.m);
        }
      }
  }

  lemma {:induction false} SkipsAlts(env: Env, script: Bytes, value: bool, alts: Alts, m: Machine)
    requires WellFormedAlts(alts)
    ensures
      var r := RunAlts(env, script, false, value, alts, m);
      r.Ok? ==> Same(r.m, m)
    decreases alts
  {
    hide Disabled;
    match alts
    case End(close) =>
    case Else(op, body, rest) =>
      var g := Limit(Guard(op, m));
      if g.Ok? {
        SkipsBlock(env, script, body, g.m);
        var r := RunBlock(env, script, false, body, g.m);
        if r.Ok? {
          SkipsAlts(env, script, !value, rest, r.m);
        }
      }
  }

  /** The end of an IF block with one ELSE, once its first branch is done. */
  lemma AfterFirst(env: Env, script: Bytes, value: bool, op: Instr, other: Block, close: Instr, m: Machine)
    requires WellFormed(other)
    ensures
      var r := RunAlts(env, script, true, value, Else(op, other, End(close)), m);
      r.Ok? ==>
        if value then Same(r.m, m)
        else
          var m1 := m.(counted := m.counted + if op.code > OP_16 then 1 else 0);
          RunBlock(env, script, true, other, m1).Ok? && Same(r.m, RunBlock(env, script, true, other, m1).m)
  {
    hide Disabled, RunBlock;
    var g := Limit(Guard(op, m));
    if g.Ok? {
      SkipsBlock(env, script, other, g.m);
      assert RunAlts(env, script, true, value, Else(op, other, End(close)), m) ==
             (var r := RunBlock(env, script, !value, other, g.m);
              if r.Fail? then r else RunAlts(env, script, true, !value, End(close), r.m));
    }
  }

  /**
   `IF a ELSE b ENDIF`, where it is executed: it takes the condition off the stack and does what `a` does when the
   condition is a number other than zero, what `b` does when it is zero; NOTIF the other way round.
   */
  lemma IfChooses(env: Env, script: Bytes, open: Instr, a: Block, op: Instr, b: Block, close: Instr, m: Machine)
    requires open.code == 0x63 || open.code == 0x64
    requires WellFormed(a) && WellFormed(b) && RunItem(env, script, true, Cond(open, a, Else(op, b, End(close))), m).Ok?
    ensures m.stack != []
    ensures
      var r, top := RunItem(env, script, true, Cond(open, a, Else(op, b, End(close))), m).m, |m.stack| - 1;
      var chosen := if (Decode(m.stack[top]) != 0) == (open.code == 0x63) then a else b;
      exists m1 :: Same(m1, m.(stack := m.stack[..top])) && RunBlock(env, script, true, chosen, m1).Ok?
                   && Same(r, RunBlock(env, script, true, chosen, m1).m)
  {
    hide Disabled, RunBlock, RunAlts, ToBool, Decode;
    var alts := Else(op, b, End(close));
    assert m.stack != [];
    BoolIsNonZero(Top(m.stack, 1));
    var value := ToBool(Top(m.stack, 1)) != (open.code == OP_NOTIF);
    var m0 := Guard(open, m).m.(stack := Drop(m.stack, 1));
    var first := RunBlock(env, script, value, a, m0);
    assert first.Ok? && RunItem(env, script, true, Cond(open, a, alts), m) == RunAlts(env, script, true, value, alts, first.m);
    AfterFirst(env, script, value, op, b, close, first.m);
    if value {
      assert Same(m0, m.(stack := m.stack[..|m.stack| - 1]));
    } else {
      SkipsBlock(env, script, a, m0);
      var m1 := first.m.(counted := first.m.counted + if op.code > OP_16 then 1 else 0);
      assert Same(m1, m.(stack := m.stack[..|m.stack| - 1]));
    }
  }
}
