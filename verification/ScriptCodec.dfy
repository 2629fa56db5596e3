/** Serialized scripts: reading one operation, pushing data, and deleting an operation in place. */
module ScriptCodec {
  import opened Basics

  const OP_PUSHDATA1 := 0x4c
  const OP_PUSHDATA2 := 0x4d
  const OP_PUSHDATA4 := 0x4e
  const OP_1 := 0x51
  const OP_16 := 0x60

  /** One operation: its code, the data it pushes, and where the next one starts. */
  datatype Op = Op(code: int, data: Bytes, next: nat)

  /** Little-endian value of the bytes, as `memcpy` into an unsigned integer gives it. */
  function LittleEndian(b: Bytes): (n: nat)
  {
    if b == [] then 0 else (b[0] as int) + 256 * LittleEndian(b[1..])
  }

  /** The last bytes count most. */
  lemma {:induction false} LittleEndianJoins(a: Bytes, b: Bytes)
    ensures LittleEndian(a + b) == LittleEndian(a) + Pow256(|a|) * LittleEndian(b)
    ensures forall x: Byte :: LittleEndian([x]) == x as int
    decreases |a|
  {
    forall x: Byte ensures LittleEndian([x]) == x as int {
      assert [x][1..] == [];
    }
    if a == [] {
      assert a + b == b;
    } else {
      LittleEndianJoins(a[1..], b);
      assert (a + b)[1..] == a[1..] + b;
      Regroup(a[0] as int, LittleEndian(a[1..]), Pow256(|a| - 1), LittleEndian(b));
    }
  }

  lemma Regroup(x: int, y: int, p: int, z: int)
    ensures x + 256 * (y + p * z) == x + 256 * y + (256 * p) * z
  {
  }

  /** Bytes of the length field after the opcode. */
  function LengthBytes(code: int): nat {
    if code == OP_PUSHDATA1 then 1 else if code == OP_PUSHDATA2 then 2 else if code == OP_PUSHDATA4 then 4 else 0
  }

  /** `GetOp2`: read the operation at the start of `s`. */
  function ReadOp(s: Bytes): (r: Option<Op>)
    ensures r.Some? ==> 0 < r.value.next <= |s|
    ensures r.Some? ==> 0 <= r.value.code < 256
  {
    if s == [] then None
    else
      var code := s[0] as int;
      if code > OP_PUSHDATA4 then Some(Op(code, [], 1))
      else
        var k := 1 + LengthBytes(code);
        if |s| < k then None
        else
          var size := if code < OP_PUSHDATA1 then code else LittleEndian(s[1..k]);
          if |s| - k < size then None else Some(Op(code, s[k..k + size], k + size))
  }

  /** Reading looks at the operation's own bytes only. */
  lemma ReadOpPrefix(a: Bytes, b: Bytes)
    requires ReadOp(a).Some?
    ensures ReadOp(a + b) == ReadOp(a)
  {
    var code := a[0] as int;
    if code <= OP_PUSHDATA4 {
      var k := 1 + LengthBytes(code);
      assert (a + b)[1..k] == a[1..k];
      var n := ReadOp(a).value.next;
      assert (a + b)[k..n] == a[k..n];
    }
  }

  lemma ReadOpSelf(s: Bytes)
    requires ReadOp(s).Some?
    ensures ReadOp(s[..ReadOp(s).value.next]) == ReadOp(s)
  {
    var n, code := ReadOp(s).value.next, s[0] as int;
    if code <= OP_PUSHDATA4 {
      var k := 1 + LengthBytes(code);
      assert s[..n][1..k] == s[1..k];
      assert s[..n][k..n] == s[k..n];
    }
  }

  /** `b` is the encoding of one operation and nothing more. */
  predicate IsSingle(b: Bytes) {
    ReadOp(b).Some? && ReadOp(b).value.next == |b|
  }

  // ------------------------------------------------------------------ pushing

  function SizeBytes(n: nat, k: nat): (b: Bytes)
    ensures |b| == k
  {
    if k == 0 then [] else [(n % 256) as Byte] + SizeBytes(n / 256, k - 1)
  }

  lemma {:induction false} SizeRoundTrip(n: nat, k: nat)
    requires n < Pow256(k)
    ensures LittleEndian(SizeBytes(n, k)) == n
    decreases k
  {
    if k > 0 {
      assert n / 256 < Pow256(k - 1);
      SizeRoundTrip(n / 256, k - 1);
      assert SizeBytes(n, k)[1..] == SizeBytes(n / 256, k - 1);
    }
  }

  /** `operator<<` for data: the shortest length field that holds the size. */
  function Push(v: Bytes): Bytes {
    if |v| < OP_PUSHDATA1 then [|v| as Byte] + v
    else if |v| <= 0xff then [OP_PUSHDATA1 as Byte] + SizeBytes(|v|, 1) + v
    else if |v| <= 0xffff then [OP_PUSHDATA2 as Byte] + SizeBytes(|v|, 2) + v
    else [OP_PUSHDATA4 as Byte] + SizeBytes(|v|, 4) + v
  }

  lemma Layout(c: Byte, size: Bytes, v: Bytes)
    ensures
      var s := [c] + size + v;
      |s| == 1 + |size| + |v| && s[0] == c && s[1..1 + |size|] == size && s[1 + |size|..1 + |size| + |v|] == v
  {
  }

  lemma ReadLaid(s: Bytes, size: Bytes, v: Bytes)
    requires |s| == 1 + |size| + |v| && OP_PUSHDATA1 <= s[0] as int <= OP_PUSHDATA4 && |size| == LengthBytes(s[0] as int)
    requires s[1..1 + |size|] == size && LittleEndian(size) == |v| && s[1 + |size|..1 + |size| + |v|] == v
    ensures ReadOp(s) == Some(Op(s[0] as int, v, |s|))
  {
    hide LittleEndian;
  }

  lemma ReadSized(c: Byte, size: Bytes, v: Bytes)
    requires OP_PUSHDATA1 <= c as int <= OP_PUSHDATA4 && |size| == LengthBytes(c as int) && LittleEndian(size) == |v|
    ensures ReadOp([c] + size + v) == Some(Op(c as int, v, 1 + |size| + |v|))
  {
    hide LittleEndian, ReadOp, LengthBytes;
    Layout(c, size, v);
    ReadLaid([c] + size + v, size, v);
  }

  lemma ReadLong(code: int, v: Bytes, k: nat)
    requires OP_PUSHDATA1 <= code <= OP_PUSHDATA4 && k == LengthBytes(code) && |v| < Pow256(k)
    ensures ReadOp([code as Byte] + SizeBytes(|v|, k) + v) == Some(Op(code, v, 1 + k + |v|))
  {
    hide SizeBytes, LittleEndian, Pow256, ReadOp, LengthBytes;
    SizeRoundTrip(|v|, k);
    ReadSized(code as Byte, SizeBytes(|v|, k), v);
  }

  /** The length takes no byte of its own up to 75, then one, two or four. */
  lemma PushSize(v: Bytes)
    requires |v| < 0x1_0000_0000
    ensures |Push(v)| == |v| + (if |v| <= 75 then 1 else if |v| <= 255 then 2 else if |v| <= 65535 then 3 else 5)
  {
  }

  /** Reading back a push gives the data, whatever follows it. */
  lemma PushRoundTrip(v: Bytes, rest: Bytes)
    requires |v| < 0x1_0000_0000
    ensures IsSingle(Push(v)) && ReadOp(Push(v) + rest).Some?
    ensures
      var op := ReadOp(Push(v) + rest).value;
      op.data == v && op.next == |Push(v)| && op.code <= OP_PUSHDATA4
  {
    assert Pow256(1) == 0x100 && Pow256(2) == 0x1_0000 && Pow256(4) == 0x1_0000_0000 by {
      assert Pow256(3) == 0x100_0000;
    }
    if |v| < OP_PUSHDATA1 {
      assert Push(v)[1..1 + |v|] == v;
    } else if |v| <= 0xff {
      ReadLong(OP_PUSHDATA1, v, 1);
    } else if |v| <= 0xffff {
      ReadLong(OP_PUSHDATA2, v, 2);
    } else {
      ReadLong(OP_PUSHDATA4, v, 4);
    }
    ReadOpPrefix(Push(v), rest);
  }

  // -------------------------------------------------------- the operation list

  /** The encodings of the operations of a script, and the tail that cannot be read. */
  datatype Parsed = Parsed(ops: seq<Bytes>, tail: Bytes)

  function Split(s: Bytes): Parsed
    decreases |s|
  {
    if ReadOp(s).None? then Parsed([], s)
    else
      var n := ReadOp(s).value.next;
      var p := Split(s[n..]);
      Parsed([s[..n]] + p.ops, p.tail)
  }

  function Join(ops: seq<Bytes>): Bytes {
    if ops == [] then [] else ops[0] + Join(ops[1..])
  }

  lemma JoinCons(x: Bytes, ops: seq<Bytes>)
    ensures Join([x] + ops) == x + Join(ops)
  {
    assert ([x] + ops)[1..] == ops;
  }

  lemma Assoc(a: Bytes, b: Bytes, c: Bytes)
    ensures (a + b) + c == a + (b + c)
  {
  }

  lemma Cut(s: Bytes, n: nat)
    requires n <= |s|
    ensures s[..n] + s[n..] == s
  {
  }

  lemma JoinNone()
    ensures Join([]) == []
  {
  }

  /** Splitting loses nothing. */
  lemma {:induction false} SplitJoins(s: Bytes)
    ensures Join(Split(s).ops) + Split(s).tail == s
    decreases |s|
  {
    hide ReadOp, Join;
    var p := Split(s);
    if ReadOp(s).Some? {
      var n := ReadOp(s).value.next;
      var head, rest := s[..n], s[n..];
      SplitJoins(rest);
      JoinCons(head, Split(rest).ops);
      Assoc(head, Join(Split(rest).ops), p.tail);
      Cut(s, n);
    } else {
      JoinNone();
      assert p == Parsed([], s);
      assert [] + s == s;
    }
  }

  lemma {:induction false} SplitSingles(s: Bytes)
    ensures forall b :: b in Split(s).ops ==> IsSingle(b)
    ensures ReadOp(Split(s).tail).None?
    decreases |s|
  {
    hide ReadOp;
    if ReadOp(s).Some? {
      SplitSingles(s[ReadOp(s).value.next..]);
      ReadOpSelf(s);
    }
  }

  /** A list of operations followed by something unreadable splits back into itself. */
  lemma {:induction false} SplitOfJoin(ops: seq<Bytes>, tail: Bytes)
    requires (forall i :: 0 <= i < |ops| ==> IsSingle(ops[i])) && ReadOp(tail).None?
    ensures Split(Join(ops) + tail) == Parsed(ops, tail)
  {
    hide ReadOp;
    if ops == [] {
      assert Join(ops) + tail == tail;
    } else {
      var rest := Join(ops[1..]) + tail;
      var s := Join(ops) + tail;
      assert s == ops[0] + rest;
      ReadOpPrefix(ops[0], rest);
      assert s[..|ops[0]|] == ops[0] && s[|ops[0]|..] == rest;
      SplitOfJoin(ops[1..], tail);
      assert ops == [ops[0]] + ops[1..];
    }
  }

  // ------------------------------------------------------------ FindAndDelete

  function Without(ops: seq<Bytes>, b: Bytes): seq<Bytes> {
    if ops == [] then [] else (if ops[0] == b then [] else [ops[0]]) + Without(ops[1..], b)
  }

  function Occurrences(ops: seq<Bytes>, b: Bytes): nat {
    if ops == [] then 0 else (if ops[0] == b then 1 else 0) + Occurrences(ops[1..], b)
  }

  /** The script with every operation `b` taken out; the unreadable tail stays. */
  function Deleted(s: Bytes, b: Bytes): Bytes {
    Join(Without(Split(s).ops, b)) + Split(s).tail
  }

  predicate StartsWith(s: Bytes, b: Bytes) {
    |s| >= |b| && s[..|b|] == b
  }

  lemma DeletedHere(s: Bytes, b: Bytes)
    requires IsSingle(b) && StartsWith(s, b)
    ensures Deleted(s, b) == Deleted(s[|b|..], b)
    ensures Occurrences(Split(s).ops, b) == 1 + Occurrences(Split(s[|b|..]).ops, b)
  {
    hide ReadOp, Split, Without, Occurrences, Join;
    Cut(s, |b|);
    ReadOpPrefix(b, s[|b|..]);
    SplitCons(s, b);
    assert [] + Without(Split(s[|b|..]).ops, b) == Without(Split(s[|b|..]).ops, b);
  }

  lemma DeletedPast(s: Bytes, b: Bytes)
    requires ReadOp(s).Some? && IsSingle(b) && !StartsWith(s, b)
    ensures
      var n := ReadOp(s).value.next;
      && Deleted(s, b) == s[..n] + Deleted(s[n..], b)
      && Occurrences(Split(s).ops, b) == Occurrences(Split(s[n..]).ops, b)
  {
    hide ReadOp, Split, Without, Occurrences, Join;
    var n := ReadOp(s).value.next;
    SplitCons(s, b);
    var rest, tail := Without(Split(s[n..]).ops, b), Split(s[n..]).tail;
    JoinCons(s[..n], rest);
    Assoc(s[..n], Join(rest), tail);
  }

  lemma DeletedStep(s: Bytes, b: Bytes)
    requires IsSingle(b)
    ensures StartsWith(s, b) ==>
              && Deleted(s, b) == Deleted(s[|b|..], b)
              && Occurrences(Split(s).ops, b) == 1 + Occurrences(Split(s[|b|..]).ops, b)
    ensures !StartsWith(s, b) && ReadOp(s).Some? ==>
              var n := ReadOp(s).value.next;
              && Deleted(s, b) == s[..n] + Deleted(s[n..], b)
              && Occurrences(Split(s).ops, b) == Occurrences(Split(s[n..]).ops, b)
    ensures !StartsWith(s, b) && ReadOp(s).None? ==> Deleted(s, b) == s && Occurrences(Split(s).ops, b) == 0
  {
    hide ReadOp, Split, Occurrences, Deleted;
    if StartsWith(s, b) {
      DeletedHere(s, b);
    } else if ReadOp(s).Some? {
      DeletedPast(s, b);
    } else {
      SplitNothing(s, b);
    }
  }

  lemma SplitNothing(s: Bytes, b: Bytes)
    requires ReadOp(s).None?
    ensures Deleted(s, b) == s && Occurrences(Split(s).ops, b) == 0
  {
    assert Join(Without([], b)) + s == s;
  }

  lemma SplitCons(s: Bytes, b: Bytes)
    requires ReadOp(s).Some?
    ensures
      var n := ReadOp(s).value.next;
      var ops := Split(s[n..]).ops;
      && Split(s).tail == Split(s[n..]).tail
      && Without(Split(s).ops, b) == (if s[..n] == b then [] else [s[..n]]) + Without(ops, b)
      && Occurrences(Split(s).ops, b) == (if s[..n] == b then 1 else 0) + Occurrences(ops, b)
  {
    hide ReadOp;
    var n := ReadOp(s).value.next;
    assert Split(s).ops[1..] == Split(s[n..]).ops;
  }

  /** What erasing `b` at every boundary leaves of `s`, for any `b`. */
  function Erase(s: Bytes, b: Bytes): Bytes
    requires b != []
    decreases |s|
  {
    if StartsWith(s, b) then Erase(s[|b|..], b)
    else if ReadOp(s).None? then s
    else
      var n := ReadOp(s).value.next;
      s[..n] + Erase(s[n..], b)
  }

  function Erasures(s: Bytes, b: Bytes): nat
    requires b != []
    decreases |s|
  {
    if StartsWith(s, b) then 1 + Erasures(s[|b|..], b)
    else if ReadOp(s).None? then 0
    else Erasures(s[ReadOp(s).value.next..], b)
  }

  /** For the encoding of one operation, erasing bytes is filtering the operation list. */
  lemma {:induction false} EraseFilters(s: Bytes, b: Bytes)
    requires IsSingle(b)
    ensures Erase(s, b) == Deleted(s, b)
    ensures Erasures(s, b) == Occurrences(Split(s).ops, b)
    decreases |s|
  {
    hide ReadOp, Split, Deleted, Occurrences;
    DeletedStep(s, b);
    if StartsWith(s, b) {
      EraseFilters(s[|b|..], b);
    } else if ReadOp(s).Some? {
      EraseFilters(s[ReadOp(s).value.next..], b);
    }
  }

  /** Half-way: up to `pc` the script is as it should be, and `found` operations are gone. */
  ghost predicate Halfway(script: Bytes, b: Bytes, r: Bytes, found: nat, pc: nat)
    requires b != []
  {
    && pc <= |r|
    && Erase(script, b) == r[..pc] + Erase(r[pc..], b)
    && Erasures(script, b) == found + Erasures(r[pc..], b)
  }

  lemma HalfwayStart(script: Bytes, b: Bytes)
    requires b != []
    ensures Halfway(script, b, script, 0, 0)
  {
    hide ReadOp, Erase, Erasures;
    assert script[..0] == [] && script[0..] == script;
    assert [] + Erase(script, b) == Erase(script, b);
  }

  lemma HalfwayErase(script: Bytes, b: Bytes, r: Bytes, found: nat, pc: nat)
    requires b != [] && Halfway(script, b, r, found, pc) && StartsWith(r[pc..], b)
    ensures Halfway(script, b, r[..pc] + r[pc + |b|..], found + 1, pc)
  {
    hide ReadOp;
    var r' := r[..pc] + r[pc + |b|..];
    assert r'[..pc] == r[..pc] && r'[pc..] == r[pc..][|b|..];
  }

  lemma SliceTwice(s: Bytes, i: nat, n: nat)
    requires i + n <= |s|
    ensures s[i..][n..] == s[i + n..] && s[..i] + s[i..][..n] == s[..i + n]
  {
  }

  /** Past one operation that is not `b`, or done at the unreadable tail. */
  lemma HalfwayStep(script: Bytes, b: Bytes, r: Bytes, found: nat, pc: nat)
    requires b != [] && Halfway(script, b, r, found, pc) && !StartsWith(r[pc..], b)
    ensures ReadOp(r[pc..]).Some? ==> Halfway(script, b, r, found, pc + ReadOp(r[pc..]).value.next)
    ensures ReadOp(r[pc..]).None? ==> r == Erase(script, b) && found == Erasures(script, b)
  {
    hide ReadOp;
    if ReadOp(r[pc..]).Some? {
      var n := ReadOp(r[pc..]).value.next;
      SliceTwice(r, pc, n);
      Assoc(r[..pc], r[pc..][..n], Erase(r[pc + n..], b));
    } else {
      Cut(r, pc);
    }
  }

  lemma NothingIsSingle()
    ensures !IsSingle([])
  {
  }

  /** The inner loop: erase as long as `b` is what comes next. */
  method EraseHere(ghost script: Bytes, b: Bytes, r0: Bytes, found0: nat, pc: nat) returns (r: Bytes, found: nat)
    requires b != [] && Halfway(script, b, r0, found0, pc)
    ensures pc <= |r| <= |r0| && Halfway(script, b, r, found, pc) && !StartsWith(r[pc..], b)
  {
    hide ReadOp, Erase, Erasures;
    r, found := r0, found0;
    while StartsWith(r[pc..], b)
      invariant pc <= |r| <= |r0| && Halfway(script, b, r, found, pc)
      decreases |r|
    {
      HalfwayErase(script, b, r, found, pc);
      r, found := r[..pc] + r[pc + |b|..], found + 1;
    }
  }

  /** `FindAndDelete`: erase in place at every operation boundary, then step over one operation. */
  method FindAndDelete(script: Bytes, b: Bytes) returns (r: Bytes, found: nat)
    ensures b == [] ==> r == script && found == 0
    ensures b != [] ==> r == Erase(script, b) && found == Erasures(script, b)
    ensures IsSingle(b) ==> r == Deleted(script, b) && found == Occurrences(Split(script).ops, b)
  {
    hide *;
    r, found := script, 0;
    if b == [] {
      assert !IsSingle(b) by {
        NothingIsSingle();
      }
      return;
    }
    if IsSingle(b) {
      EraseFilters(script, b);
    }
    HalfwayStart(script, b);
    var pc, more := 0, true;
    while more
      invariant 0 <= pc <= |r| && (more ==> Halfway(script, b, r, found, pc))
      invariant !more ==> r == Erase(script, b) && found == Erasures(script, b)
      decreases more, |r| - pc
    {
      r, found := EraseHere(script, b, r, found, pc);
      HalfwayStep(script, b, r, found, pc);
      var op := ReadOp(r[pc..]);
      if op.Some? {
        pc := pc + op.value.next;
      } else {
        more := false;
      }
    }
  }

  lemma {:induction false} WithoutTwice(ops: seq<Bytes>, b: Bytes)
    ensures Without(Without(ops, b), b) == Without(ops, b) && Occurrences(Without(ops, b), b) == 0
    ensures forall x :: x in Without(ops, b) ==> x in ops
  {
    if ops != [] {
      WithoutTwice(ops[1..], b);
      var rest := Without(ops[1..], b);
      if ops[0] != b {
        assert Without(ops, b) == [ops[0]] + rest;
        assert ([ops[0]] + rest)[1..] == rest;
      } else {
        assert Without(ops, b) == rest;
      }
    }
  }

  /** Deleting again finds nothing more. */
  lemma DeleteIdempotent(s: Bytes, b: Bytes)
    ensures Deleted(Deleted(s, b), b) == Deleted(s, b)
    ensures Occurrences(Split(Deleted(s, b)).ops, b) == 0
  {
    hide ReadOp, Split, Without, Occurrences;
    SplitSingles(s);
    var p := Split(s);
    WithoutTwice(p.ops, b);
    var w := Without(p.ops, b);
    forall i | 0 <= i < |w| ensures IsSingle(w[i]) {
      assert w[i] in p.ops;
    }
    SplitOfJoin(w, p.tail);
  }
}
