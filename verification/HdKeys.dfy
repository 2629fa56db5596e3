/** Hierarchical deterministic keys (BIP 32): child derivation, paths and the 78-byte form. */
module HdKeys {
  import opened Basics

  const HARDENED: nat := 0x8000_0000

  const WORD: nat := 0x1_0000_0000

  // ------------------------------------------------------------ big-endian bytes

  function Number(b: Bytes): nat {
    if b == [] then 0 else 256 * Number(b[..|b| - 1]) + b[|b| - 1] as int
  }

  function Big(n: nat, size: nat): (b: Bytes)
    ensures |b| == size
  {
    if size == 0 then [] else Big(n / 256, size - 1) + [(n % 256) as Byte]
  }

  lemma {:induction false} BigRoundTrip(n: nat, size: nat)
    requires n < Pow256(size)
    ensures Number(Big(n, size)) == n
    decreases size
  {
    if size > 0 {
      BigRoundTrip(n / 256, size - 1);
      var b := Big(n, size);
      assert b[..size - 1] == Big(n / 256, size - 1);
    }
  }

  lemma {:induction false} NumberRoundTrip(b: Bytes)
    ensures Big(Number(b), |b|) == b
  {
    if b != [] {
      var n := |b| - 1;
      NumberRoundTrip(b[..n]);
      assert Number(b) / 256 == Number(b[..n]) && Number(b) % 256 == b[n] as int;
      assert b == b[..n] + [b[n]];
    }
  }

  /** The first bytes count most. */
  lemma {:induction false} NumberJoins(a: Bytes, b: Bytes)
    ensures Number(a + b) == Number(a) * Pow256(|b|) + Number(b)
    ensures forall x: Byte :: Number([x]) == x as int
    decreases |b|
  {
    forall x: Byte ensures Number([x]) == x as int {
      assert [x][..0] == [];
    }
    if b == [] {
      assert a + b == a;
    } else {
      var n := |b| - 1;
      NumberJoins(a, b[..n]);
      assert (a + b)[..|a| + n] == a + b[..n];
      Regroup(Number(a), Pow256(n), Number(b[..n]), b[n] as int);
    }
  }

  lemma Regroup(x: int, p: int, y: int, z: int)
    ensures 256 * (x * p + y) + z == x * (256 * p) + (256 * y + z)
  {
  }

  // --------------------------------------------------------------- the curve

  /** A cyclic group with its generator's multiples, the point encoding and the hash functions. */
  datatype Curve<!P> = Curve(
    order: nat,
    times: nat -> P,
    add: (P, P) -> P,
    infinity: P,
    encode: P -> Bytes,
    decode: Bytes -> P,
    hmac: (Bytes, Bytes) -> (Bytes, Bytes),
    fingerprint: Bytes -> nat,
    publicVersion: nat)

  ghost predicate Group<P(!new)>(c: Curve<P>) {
    && 1 < c.order <= Pow256(32)
    && (forall a: nat, b: nat :: c.add(c.times(a), c.times(b)) == c.times(a + b))
    && (forall p: P :: c.add(p, c.infinity) == p)
    && (forall n: nat :: c.times(n) == c.infinity <==> n % c.order == 0)
  }

  ghost predicate Encoding<P(!new)>(c: Curve<P>) {
    && (forall p: P :: p != c.infinity ==> |c.encode(p)| == 33 && c.encode(p)[0] != 0 && c.decode(c.encode(p)) == p)
    && (forall k: Bytes, d: Bytes :: |c.hmac(k, d).0| == 32 && |c.hmac(k, d).1| == 32)
    && (forall b: Bytes :: c.fingerprint(b) < WORD)
    && c.publicVersion < WORD
  }

  ghost predicate Lawful<P(!new)>(c: Curve<P>) {
    Group(c) && Encoding(c)
  }

  lemma TimesAdds<P(!new)>(c: Curve<P>, a: nat, b: nat)
    requires Group(c)
    ensures c.add(c.times(a), c.times(b)) == c.times(a + b)
  {
  }

  lemma TimesInfinity<P(!new)>(c: Curve<P>, n: nat)
    requires Group(c)
    ensures c.times(n) == c.infinity <==> n % c.order == 0
  {
  }

  lemma AddInfinity<P(!new)>(c: Curve<P>, p: P)
    requires Group(c)
    ensures c.add(p, c.infinity) == p
  {
  }

  function Product(a: int, b: int): int {
    a * b
  }

  lemma ProductAtLeast(a: int, b: int)
    requires b >= 0
    ensures a > 0 ==> Product(a, b) >= b
    ensures a < 0 ==> Product(a, b) <= -b
  {
  }

  lemma ProductMinus(a: int, b: int, m: int)
    ensures Product(a - b, m) == Product(a, m) - Product(b, m)
  {
  }

  lemma Division(n: nat, m: nat)
    requires m > 0
    ensures n == Product(n / m, m) + n % m && 0 <= n % m < m
  {
  }

  lemma MultipleIsZero(k: nat, m: nat)
    requires m > 0 && Product(k, m) >= 0
    ensures Product(k, m) % m == 0
  {
    hide Product;
    var a := Product(k, m);
    Division(a, m);
    ProductMinus(k, a / m, m);
    ProductAtLeast(k - a / m, m);
    assert Product(0, m) == 0 by {
      ProductZero(m);
    }
  }

  lemma ProductZero(m: int)
    ensures Product(0, m) == 0
  {
  }

  lemma WholeTurns(n: nat, m: nat)
    requires m > 0
    ensures n % m < m && n - n % m >= 0 && (n - n % m) % m == 0
  {
    hide Product;
    Division(n, m);
    assert Product(n / m, m) >= 0 by {
      ProductPositive(n / m, m);
    }
    MultipleIsZero(n / m, m);
  }

  lemma ProductPositive(a: nat, b: nat)
    ensures Product(a, b) >= 0
  {
  }

  /** Only the remainder of the factor counts. */
  lemma TimesRemainder<P(!new)>(c: Curve<P>, n: nat)
    requires Group(c)
    ensures c.times(n % c.order) == c.times(n)
  {
    var r := n % c.order;
    WholeTurns(n, c.order);
    TimesInfinity(c, n - r);
    TimesAdds(c, r, n - r);
    AddInfinity(c, c.times(r));
  }

  // ------------------------------------------------------------- key derivation

  datatype Keychain = Keychain(
    version: nat, depth: nat, parent: nat, number: nat, chainCode: Bytes, key: Bytes, pubkey: Bytes)

  predicate IsPrivate(k: Keychain) {
    |k.key| == 33 && k.key[0] == 0
  }

  /** `getPublic`. */
  function Public<P>(c: Curve<P>, k: Keychain): Keychain {
    k.(version := c.publicVersion, key := k.pubkey)
  }

  /** `getChild`; `None` is an exception. */
  function Child<P(==)>(c: Curve<P>, k: Keychain, i: nat): Option<Keychain>
    requires i < WORD && 0 < c.order
  {
    if i >= HARDENED && !IsPrivate(k) then None
    else
      var data := (if i >= HARDENED then k.key else k.pubkey) + Big(i, 4);
      var (left, right) := c.hmac(k.chainCode, data);
      var il := Number(left);
      if il >= c.order then None
      else
        var child := Keychain(k.version, (k.depth + 1) % 256, c.fingerprint(k.pubkey), i, right, [], []);
        if IsPrivate(k) then
          var n := (Number(k.key) + il) % c.order;
          if n == 0 then None
          else Some(child.(key := Big(n, 33), pubkey := c.encode(c.times(n))))
        else
          var point := c.add(c.times(il), c.decode(k.pubkey));
          if point == c.infinity then None
          else Some(child.(key := c.encode(point), pubkey := c.encode(point)))
  }

  /** A private keychain holds a number in range and the point that belongs to it. */
  ghost predicate Sound<P(!new)>(c: Curve<P>, k: Keychain)
    requires Lawful(c)
  {
    var n := Number(k.key);
    && IsPrivate(k) && 0 < n < c.order && k.pubkey == c.encode(c.times(n))
    && k.version < WORD && k.depth < 256 && k.parent < WORD && k.number < WORD && |k.chainCode| == 32
  }

  lemma BigFirst(n: nat)
    requires n < Pow256(32)
    ensures Big(n, 33)[0] == 0 && Number(Big(n, 33)) == n
  {
    assert Pow256(33) == 256 * Pow256(32);
    BigRoundTrip(n, 33);
    BigTop(n, 32);
  }

  lemma {:induction false} BigTop(n: nat, size: nat)
    requires n < Pow256(size)
    ensures Big(n, size + 1)[0] == 0
    decreases size
  {
    if size > 0 {
      assert n / 256 < Pow256(size - 1);
      BigTop(n / 256, size - 1);
    }
  }

  /** A child of a sound private keychain is one again. */
  lemma ChildSound<P(!new)>(c: Curve<P>, k: Keychain, i: nat)
    requires Lawful(c) && Sound(c, k) && i < WORD
    ensures Child(c, k, i).Some? ==> Sound(c, Child(c, k, i).value)
  {
    hide Number, Big, Pow256;
    var r := Child(c, k, i);
    if r.Some? {
      var data := (if i >= HARDENED then k.key else k.pubkey) + Big(i, 4);
      var il := Number(c.hmac(k.chainCode, data).0);
      var n := (Number(k.key) + il) % c.order;
      BigFirst(n);
    }
  }

  /** The public part of a keychain, or of none. */
  function PublicOf<P>(c: Curve<P>, k: Option<Keychain>): Option<Keychain> {
    if k.None? then None else Some(Public(c, k.value))
  }

  lemma EncodeLaw<P(!new)>(c: Curve<P>, p: P)
    requires Encoding(c) && p != c.infinity
    ensures |c.encode(p)| == 33 && c.encode(p)[0] != 0 && c.decode(c.encode(p)) == p
  {
  }

  lemma SumLaw<P(!new)>(c: Curve<P>, a: nat, b: nat)
    requires Group(c)
    ensures
      var n := (a + b) % c.order;
      c.add(c.times(b), c.times(a)) == c.times(n) && (c.times(n) == c.infinity <==> n == 0)
  {
    hide Group;
    OrderLaw(c);
    TimesAdds(c, b, a);
    TimesRemainder(c, a + b);
    var n := (a + b) % c.order;
    SmallRemainder(a + b, c.order);
    TimesInfinity(c, n);
  }

  lemma SmallRemainder(a: nat, m: nat)
    requires m > 0
    ensures 0 <= a % m < m && a % m % m == a % m
  {
    Remainder(a % m, m);
  }

  lemma OrderLaw<P(!new)>(c: Curve<P>)
    requires Group(c)
    ensures 1 < c.order <= Pow256(32)
  {
  }

  lemma Remainder(n: nat, m: nat)
    requires n < m
    ensures n % m == n
  {
  }

  /** For an index that is not hardened, deriving and taking the public part commute, failures included. */
  lemma DerivationCommutes<P(!new)>(c: Curve<P>, k: Keychain, i: nat)
    requires Lawful(c) && Sound(c, k) && i < HARDENED
    ensures PublicOf(c, Child(c, k, i)) == Child(c, Public(c, k), i)
  {
    hide Number, Big, Pow256, Group, Encoding;
    OrderLaw(c);
    var a := Number(k.key);
    TimesInfinity(c, a);
    Remainder(a, c.order);
    EncodeLaw(c, c.times(a));
    var il := Number(c.hmac(k.chainCode, k.pubkey + Big(i, 4)).0);
    SumLaw(c, a, il);
  }

  /** A private key is a zero byte and its number. */
  lemma KeyBytes(key: Bytes)
    requires |key| == 33 && key[0] == 0
    ensures key == [0] + Big(Number(key), 32)
  {
    hide Number, Big;
    assert key == [0] + key[1..];
    LeadingZero(key[1..]);
    NumberRoundTrip(key[1..]);
  }

  lemma BigPadded(n: nat)
    requires n < Pow256(32)
    ensures Big(n, 33) == [0] + Big(n, 32)
  {
    hide Number, Big, Pow256;
    BigFirst(n);
    KeyBytes(Big(n, 33));
  }

  /** The number a private child adds: from the private key for a hardened index, from the public one otherwise. */
  function Hashed<P>(c: Curve<P>, chainCode: Bytes, n: nat, i: nat): (Bytes, Bytes) {
    c.hmac(chainCode, (if i >= 0x8000_0000 then [0] + Big(n, 32) else c.encode(c.times(n))) + Big(i, 4))
  }

  /**
   Private derivation on numbers, section "Child key derivation" of BIP 32: the child of number `n` is `n` plus the left half of
   the hash, modulo the order. It fails exactly when the left half is out of range or the sum is 0.
   */
  lemma ChildIs<P(!new)>(c: Curve<P>, k: Keychain, i: nat)
    requires Lawful(c) && Sound(c, k) && i < WORD
    ensures
      var n, r := Number(k.key), Child(c, k, i);
      var (left, right) := Hashed(c, k.chainCode, n, i);
      var m := (Number(left) + n) % c.order;
      && (r.None? <==> Number(left) >= c.order || m == 0)
      && (r.Some? ==>
            && r.value.key == [0] + Big(m, 32) && r.value.pubkey == c.encode(c.times(m)) && r.value.chainCode == right
            && r.value.number == i && r.value.parent == c.fingerprint(c.encode(c.times(n)))
            && r.value.depth == (k.depth + 1) % 256 && r.value.version == k.version)
  {
    hide Number, Big, Pow256, Group, Encoding;
    OrderLaw(c);
    var n := Number(k.key);
    KeyBytes(k.key);
    var m := (Number(Hashed(c, k.chainCode, n, i).0) + n) % c.order;
    SmallRemainder(Number(Hashed(c, k.chainCode, n, i).0) + n, c.order);
    BigPadded(m);
  }

  /**
   Public derivation on points: the child is the sum of the point of the left half and the parent's point. A hardened index
   has no public child.
   */
  lemma PublicChildIs<P(!new)>(c: Curve<P>, k: Keychain, i: nat)
    requires Lawful(c) && Sound(c, k) && i < WORD
    ensures
      var n, r := Number(k.key), Child(c, Public(c, k), i);
      var (left, right) := Hashed(c, k.chainCode, n, i);
      var point := c.add(c.times(Number(left)), c.times(n));
      && (r.None? <==> i >= 0x8000_0000 || Number(left) >= c.order || point == c.infinity)
      && (r.Some? ==>
            && r.value.key == r.value.pubkey == c.encode(point) && r.value.chainCode == right
            && r.value.number == i && r.value.parent == c.fingerprint(c.encode(c.times(n)))
            && r.value.depth == (k.depth + 1) % 256 && r.value.version == c.publicVersion)
  {
    hide Number, Big, Pow256, Group, Encoding;
    OrderLaw(c);
    var n := Number(k.key);
    TimesInfinity(c, n);
    Remainder(n, c.order);
    EncodeLaw(c, c.times(n));
  }

  // --------------------------------------------------------------------- paths

  /** The loop of `getChild(path)` over the parsed indices. */
  function Derive<P(==)>(c: Curve<P>, k: Keychain, path: seq<nat>): Option<Keychain>
    requires 0 < c.order && forall i :: 0 <= i < |path| ==> path[i] < WORD
    decreases |path|
  {
    if path == [] then Some(k)
    else
      var child := Child(c, k, path[0]);
      if child.None? then None else Derive(c, child.value, path[1..])
  }

  /** So does every path with no hardened step. */
  lemma {:induction false} PathCommutes<P(!new)>(c: Curve<P>, k: Keychain, path: seq<nat>)
    requires Lawful(c) && Sound(c, k) && forall i :: 0 <= i < |path| ==> path[i] < HARDENED
    ensures PublicOf(c, Derive(c, k, path)) == Derive(c, Public(c, k), path)
    decreases |path|
  {
    hide Child, Pow256, Group, Encoding, Sound, Public;
    OrderLaw(c);
    if path != [] {
      DerivationCommutes(c, k, path[0]);
      ChildSound(c, k, path[0]);
      if Child(c, k, path[0]).Some? {
        PathCommutes(c, Child(c, k, path[0]).value, path[1..]);
      }
    }
  }

  predicate IsDigit(c: char) {
    '0' <= c <= '9'
  }

  function DigitOf(c: char): nat
    requires IsDigit(c)
  {
    (c - '0') as int
  }

  /** What the character loop makes of the rest of a path, with `n` read so far. */
  function Steps(s: string, n: nat): Option<seq<nat>> {
    if s == [] then Some([])
    else if IsDigit(s[0]) then
      var n' := n * 10 + DigitOf(s[0]);
      if n' >= HARDENED then None
      else if |s| == 1 then Some([n'])
      else Steps(s[1..], n')
    else if s[0] == '\'' then
      if |s| > 1 && (|s| == 2 || s[1] != '/' || !IsDigit(s[2])) then None
      else
        var rest := Steps(if |s| > 1 then s[2..] else [], 0);
        if rest.None? then None else Some([n + HARDENED] + rest.value)
    else if s[0] == '/' then
      if |s| == 1 || !IsDigit(s[1]) then None
      else
        var rest := Steps(s[1..], 0);
        if rest.None? then None else Some([n] + rest.value)
    else None
  }

  function ParsedPath(path: string): Option<seq<nat>> {
    if path == [] then None else Steps(path, 0)
  }

  /** What has been read and what is still to come. */
  function Joined(out: seq<nat>, rest: Option<seq<nat>>): Option<seq<nat>> {
    if rest.None? then None else Some(out + rest.value)
  }

  lemma JoinedStart(rest: Option<seq<nat>>)
    ensures Joined([], rest) == rest
  {
    if rest.Some? {
      assert [] + rest.value == rest.value;
    }
  }

  lemma JoinedEnd(out: seq<nat>, n: nat)
    ensures Joined(out, Steps([], n)) == Some(out)
  {
    assert Steps([], n) == Some([]);
    assert out + [] == out;
  }

  lemma JoinedNext(out: seq<nat>, x: nat, rest: Option<seq<nat>>)
    ensures Joined(out + [x], rest) == Joined(out, if rest.None? then None else Some([x] + rest.value))
  {
    if rest.Some? {
      assert out + ([x] + rest.value) == (out + [x]) + rest.value;
    }
  }

  /** The rest of the path; the cursor may step past its end. */
  function From(path: string, i: nat): string {
    if i <= |path| then path[i..] else []
  }

  lemma FromStep(path: string, i: nat)
    requires i < |path|
    ensures
      var s := From(path, i);
      && |s| == |path| - i && s[0] == path[i] && s[1..] == From(path, i + 1)
      && (if |s| > 1 then s[2..] else []) == From(path, i + 2)
      && (|s| > 1 ==> s[1] == path[i + 1]) && (|s| > 2 ==> s[2] == path[i + 2])
  {
  }

  /** Half-way: `out` is read, the cursor stands at `i`, and `n` is the number read so far. */
  ghost predicate Reading(path: string, i: nat, n: nat, out: seq<nat>) {
    n < HARDENED && Joined(out, Steps(From(path, i), n)) == Steps(path, 0)
  }

  lemma ReadStart(path: string)
    ensures Reading(path, 0, 0, [])
  {
    hide Steps;
    FromStart(path);
    JoinedStart(Steps(path, 0));
  }

  lemma ReadEnd(path: string, i: nat, n: nat, out: seq<nat>)
    requires Reading(path, i, n, out) && i >= |path|
    ensures Steps(path, 0) == Some(out)
  {
    FromEnd(path, i);
    JoinedEnd(out, n);
  }

  lemma StepsDigit(s: string, n: nat)
    requires s != [] && IsDigit(s[0])
    ensures
      var n' := n * 10 + DigitOf(s[0]);
      Steps(s, n) == if n' >= HARDENED then None else if |s| == 1 then Some([n']) else Steps(s[1..], n')
  {
  }

  lemma LastDigit(out: seq<nat>, n: nat)
    ensures Joined(out + [n], Steps([], n)) == Joined(out, Some([n]))
  {
    hide Joined;
    assert Steps([], n) == Some([]);
    JoinedNext(out, n, Some([]));
    assert [n] + [] == [n];
  }

  lemma ReadDigit(path: string, i: nat, n: nat, out: seq<nat>)
    requires Reading(path, i, n, out) && i < |path| && IsDigit(path[i])
    ensures
      var n' := n * 10 + DigitOf(path[i]);
      if n' >= HARDENED then Steps(path, 0) == None
      else Reading(path, i + 1, n', if i + 1 >= |path| then out + [n'] else out)
  {
    hide Joined, From, Steps, DigitOf;
    FromStep(path, i);
    JoinedNone(out);
    StepsDigit(From(path, i), n);
    FromEnd(path, i + 1);
    LastDigit(out, n * 10 + DigitOf(path[i]));
  }

  /** The mark of a hardened step must end the path or come before a slash and a digit. */
  predicate MarkOk(path: string, i: nat) {
    i + 1 < |path| ==> i + 2 < |path| && path[i + 1] == '/' && IsDigit(path[i + 2])
  }

  lemma ReadMark(path: string, i: nat, n: nat, out: seq<nat>)
    requires Reading(path, i, n, out) && i < |path| && path[i] == '\''
    ensures if MarkOk(path, i) then Reading(path, i + 2, 0, out + [n + HARDENED]) else Steps(path, 0) == None
  {
    hide Joined, From;
    FromStep(path, i);
    JoinedNone(out);
    JoinedNext(out, n + HARDENED, Steps(From(path, i + 2), 0));
  }

  lemma ReadSlash(path: string, i: nat, n: nat, out: seq<nat>)
    requires Reading(path, i, n, out) && i < |path| && path[i] == '/'
    ensures if i + 1 < |path| && IsDigit(path[i + 1]) then Reading(path, i + 1, 0, out + [n]) else Steps(path, 0) == None
  {
    hide Joined, From;
    FromStep(path, i);
    JoinedNone(out);
    JoinedNext(out, n, Steps(From(path, i + 1), 0));
  }

  lemma ReadOther(path: string, i: nat, n: nat, out: seq<nat>)
    requires Reading(path, i, n, out) && i < |path| && !IsDigit(path[i]) && path[i] != '\'' && path[i] != '/'
    ensures Steps(path, 0) == None
  {
    hide Joined, From;
    FromStep(path, i);
    JoinedNone(out);
  }

  /** The parsing loop of `getChild(path)`. */
  method ParsePath(path: string) returns (r: Option<seq<nat>>)
    ensures r == ParsedPath(path)
  {
    hide Steps, Reading;
    if path == [] {
      return None;
    }
    var i: nat, n: nat, out: seq<nat> := 0, 0, [];
    ReadStart(path);
    while i < |path|
      invariant Reading(path, i, n, out)
    {
      var c := path[i];
      if IsDigit(c) {
        ReadDigit(path, i, n, out);
        n := n * 10 + DigitOf(c);
        if n >= HARDENED {
          return None;
        }
        i := i + 1;
        if i >= |path| {
          out := out + [n];
        }
      } else if c == '\'' {
        ReadMark(path, i, n, out);
        if i + 1 < |path| && (i + 2 >= |path| || path[i + 1] != '/' || !IsDigit(path[i + 2])) {
          return None;
        }
        out := out + [n + HARDENED];
        n := 0;
        i := i + 2;
      } else if c == '/' {
        ReadSlash(path, i, n, out);
        if i + 1 >= |path| || !IsDigit(path[i + 1]) {
          return None;
        }
        out := out + [n];
        n := 0;
        i := i + 1;
      } else {
        ReadOther(path, i, n, out);
        return None;
      }
    }
    ReadEnd(path, i, n, out);
    r := Some(out);
  }

  lemma {:induction false} StepsInRange(s: string, n: nat)
    requires n < HARDENED
    ensures Steps(s, n).Some? ==> forall i :: 0 <= i < |Steps(s, n).value| ==> Steps(s, n).value[i] < WORD
    decreases |s|
  {
    if s != [] && Steps(s, n).Some? {
      if IsDigit(s[0]) {
        if |s| > 1 {
          StepsInRange(s[1..], n * 10 + DigitOf(s[0]));
        }
      } else if s[0] == '\'' {
        StepsInRange(if |s| > 1 then s[2..] else [], 0);
      } else {
        StepsInRange(s[1..], 0);
      }
    }
  }

  /** `getChild(path)`: the path is parsed whole before the first derivation. */
  method GetChild<P(==)>(c: Curve<P>, k: Keychain, path: string) returns (r: Option<Keychain>)
    requires 0 < c.order
    ensures ParsedPath(path).None? ==> r == None
    ensures ParsedPath(path).Some? ==>
              var steps := ParsedPath(path).value;
              (forall i :: 0 <= i < |steps| ==> steps[i] < WORD) && r == Derive(c, k, steps)
  {
    hide Child, Steps;
    StepsInRange(path, 0);
    var parsed := ParsePath(path);
    if parsed.None? {
      return None;
    }
    var steps, child := parsed.value, k;
    assert steps[0..] == steps;
    for i := 0 to |steps|
      invariant Derive(c, child, steps[i..]) == Derive(c, k, steps)
    {
      assert steps[i..][1..] == steps[i + 1..];
      var next := Child(c, child, steps[i]);
      if next.None? {
        return None;
      }
      child := next.value;
    }
    r := Some(child);
  }

  lemma JoinedNone(out: seq<nat>)
    ensures Joined(out, None) == None
  {
  }

  lemma FromStart(path: string)
    ensures From(path, 0) == path
  {
  }

  lemma FromEnd(path: string, i: nat)
    ensures i >= |path| ==> From(path, i) == []
  {
  }

  // -------------------------------------------------------------- printing paths

  function Digit(n: nat): char
    requires n < 10
  {
    '0' + n as char
  }

  function Decimal(n: nat): string {
    if n < 10 then [Digit(n)] else Decimal(n / 10) + [Digit(n % 10)]
  }

  /** One index: its number, and a mark when it is hardened. */
  function Printed(i: nat): string {
    if i < HARDENED then Decimal(i) else Decimal(i - HARDENED) + "'"
  }

  function Print(path: seq<nat>): string {
    if path == [] then ""
    else if |path| == 1 then Printed(path[0])
    else Printed(path[0]) + "/" + Print(path[1..])
  }

  predicate Digits(s: string) {
    forall i :: 0 <= i < |s| ==> IsDigit(s[i])
  }

  function Value(n: nat, s: string): nat
    requires Digits(s)
    decreases |s|
  {
    if s == [] then n else Value(n * 10 + DigitOf(s[0]), s[1..])
  }

  lemma {:induction false} ValueAppend(n: nat, s: string, d: char)
    requires Digits(s) && IsDigit(d)
    ensures Digits(s + [d]) && Value(n, s + [d]) == Value(n, s) * 10 + DigitOf(d)
    decreases |s|
  {
    if s == [] {
      assert [d][1..] == [];
      assert s + [d] == [d];
      assert Value(n * 10 + DigitOf(d), []) == n * 10 + DigitOf(d);
    } else {
      ValueAppend(n * 10 + DigitOf(s[0]), s[1..], d);
      assert (s + [d])[1..] == s[1..] + [d];
    }
  }

  lemma {:induction false} DecimalValue(n: nat)
    ensures Digits(Decimal(n)) && Decimal(n) != [] && Value(0, Decimal(n)) == n
  {
    if n < 10 {
      assert Value(0, [Digit(n)]) == Value(n, []);
    } else {
      DecimalValue(n / 10);
      ValueAppend(0, Decimal(n / 10), Digit(n % 10));
    }
  }

  lemma {:induction false} ValueGrows(n: nat, s: string)
    requires Digits(s)
    ensures Value(n, s) >= n
    decreases |s|
  {
    if s != [] {
      ValueGrows(n * 10 + DigitOf(s[0]), s[1..]);
    }
  }

  /** Digits are read into the number they spell, up to what follows. */
  lemma {:induction false} StepsDigits(s: string, rest: string, n: nat)
    requires Digits(s) && s != [] && Value(n, s) < HARDENED
    ensures Steps(s + rest, n) == if rest == [] then Some([Value(n, s)]) else Steps(rest, Value(n, s))
    decreases |s|
  {
    var n' := n * 10 + DigitOf(s[0]);
    ValueGrows(n', s[1..]);
    assert (s + rest)[0] == s[0];
    assert (s + rest)[1..] == s[1..] + rest;
    if |s| == 1 {
      assert s[1..] + rest == rest;
      assert Value(n', s[1..]) == n';
    } else {
      StepsDigits(s[1..], rest, n');
    }
  }

  lemma StepsDecimal(n: nat, rest: string)
    requires n < HARDENED
    ensures Steps(Decimal(n) + rest, 0) == if rest == [] then Some([n]) else Steps(rest, n)
  {
    hide Steps;
    DecimalValue(n);
    StepsDigits(Decimal(n), rest, 0);
  }

  lemma PrintStartsWithDigit(path: seq<nat>)
    requires path != []
    ensures Print(path) != [] && IsDigit(Print(path)[0])
  {
    hide Decimal;
    DecimalValue(path[0]);
    if path[0] >= HARDENED {
      DecimalValue(path[0] - HARDENED);
    }
  }

  lemma StepsPlain(i: nat, tail: string)
    requires i < HARDENED && tail != [] && IsDigit(tail[0])
    ensures Steps(Printed(i), 0) == Some([i])
    ensures
      var rest := Steps(tail, 0);
      Steps(Printed(i) + "/" + tail, 0) == if rest.None? then None else Some([i] + rest.value)
  {
    hide Decimal;
    var slash := "/" + tail;
    assert slash[0] == '/' && slash[1] == tail[0] && slash[1..] == tail;
    StepsDecimal(i, []);
    StepsDecimal(i, slash);
    assert Decimal(i) + [] == Decimal(i);
    assert Printed(i) + "/" + tail == Decimal(i) + slash;
  }

  lemma StepsHardened(i: nat, tail: string)
    requires HARDENED <= i && i - HARDENED < HARDENED && tail != [] && IsDigit(tail[0])
    ensures Steps(Printed(i), 0) == Some([i])
    ensures
      var rest := Steps(tail, 0);
      Steps(Printed(i) + "/" + tail, 0) == if rest.None? then None else Some([i] + rest.value)
  {
    hide Decimal;
    var n := i - HARDENED;
    var marked := "'" + "/" + tail;
    assert marked[0] == '\'' && marked[1] == '/' && marked[2] == tail[0] && marked[2..] == tail;
    StepsDecimal(n, "'");
    StepsDecimal(n, marked);
    assert Printed(i) + "/" + tail == Decimal(n) + marked;
    assert Steps([], 0) == Some([]);
    assert [n + HARDENED] + [] == [i];
  }

  /** Parsing the printed form of any index list gives the list back. */
  lemma {:induction false} PrintThenParse(path: seq<nat>)
    requires path != [] && forall i :: 0 <= i < |path| ==> path[i] < WORD
    ensures ParsedPath(Print(path)) == Some(path)
    decreases |path|
  {
    hide Steps, Printed;
    PrintStartsWithDigit(path);
    var tail := "0";
    if |path| > 1 {
      PrintThenParse(path[1..]);
      PrintStartsWithDigit(path[1..]);
      tail := Print(path[1..]);
    }
    assert path == [path[0]] + path[1..] && (|path| == 1 ==> path == [path[0]]);
    if path[0] < HARDENED {
      StepsPlain(path[0], tail);
    } else {
      StepsHardened(path[0], tail);
    }
  }

  // ------------------------------------------------------------- the 78-byte form

  /** `extkey`. */
  function ExtKey(k: Keychain): Bytes {
    Big(k.version, 4) + (Big(k.depth, 1) + (Big(k.parent, 4) + (Big(k.number, 4) + (k.chainCode + k.key))))
  }

  function PubkeyOf<P>(c: Curve<P>, key: Bytes): Bytes {
    if |key| == 33 && key[0] == 0 then c.encode(c.times(Number(key[1..]))) else key
  }

  /** The constructor from 78 bytes. */
  function FromExtKey<P>(c: Curve<P>, b: Bytes): Option<Keychain> {
    if |b| != 78 then None
    else
      Some(Keychain(
             Number(b[..4]), b[4] as int, Number(b[5..9]), Number(b[9..13]), b[13..45], b[45..78], PubkeyOf(c, b[45..78])))
  }

  lemma {:induction false} LeadingZero(b: Bytes)
    ensures Number([0] + b) == Number(b)
  {
    if b == [] {
      assert Number([0]) == 256 * Number([0][..0]) + 0;
    } else {
      var n := |b| - 1;
      LeadingZero(b[..n]);
      assert ([0] + b)[..n + 1] == [0] + b[..n];
    }
  }

  lemma Fields(a: Bytes, d: Bytes, p: Bytes, n: Bytes, cc: Bytes, key: Bytes)
    requires |a| == 4 && |d| == 1 && |p| == 4 && |n| == 4 && |cc| == 32 && |key| == 33
    ensures
      var b := a + (d + (p + (n + (cc + key))));
      && |b| == 78 && b[..4] == a && b[4] == d[0] && b[5..9] == p && b[9..13] == n && b[13..45] == cc && b[45..78] == key
  {
  }

  lemma OneByte(n: nat)
    requires n < 256
    ensures Big(n, 1)[0] as int == n
  {
    assert Big(n, 1) == Big(n / 256, 0) + [(n % 256) as Byte];
  }

  /** Writing a keychain out and reading it back, private or public. */
  lemma ExtKeyRoundTrip<P(!new)>(c: Curve<P>, k: Keychain)
    requires Lawful(c) && Sound(c, k)
    ensures FromExtKey(c, ExtKey(k)) == Some(k)
    ensures FromExtKey(c, ExtKey(Public(c, k))) == Some(Public(c, k))
  {
    hide Number, Big, Group, Encoding, Pow256, PubkeyOf;
    WordLimit();
    BigRoundTrip(k.version, 4);
    BigRoundTrip(k.parent, 4);
    BigRoundTrip(k.number, 4);
    OneByte(k.depth);
    VersionLaw(c);
    BigRoundTrip(c.publicVersion, 4);
    PublicKeyLaw(c, k);
    Fields(Big(k.version, 4), Big(k.depth, 1), Big(k.parent, 4), Big(k.number, 4), k.chainCode, k.key);
    Fields(Big(c.publicVersion, 4), Big(k.depth, 1), Big(k.parent, 4), Big(k.number, 4), k.chainCode, k.pubkey);
  }

  /** The serialized form of BIP 32: version, depth, parent fingerprint, child number, chain code, key. */
  lemma ExtKeyLayout(k: Keychain)
    requires |k.chainCode| == 32 && |k.key| == 33
    ensures
      var b := ExtKey(k);
      && |b| == 78 && b[..4] == Big(k.version, 4) && b[4..5] == Big(k.depth, 1) && b[5..9] == Big(k.parent, 4)
      && b[9..13] == Big(k.number, 4) && b[13..45] == k.chainCode && b[45..] == k.key
  {
    hide Big;
    Fields(Big(k.version, 4), Big(k.depth, 1), Big(k.parent, 4), Big(k.number, 4), k.chainCode, k.key);
    assert ExtKey(k)[4..5] == [Big(k.depth, 1)[0]] == Big(k.depth, 1);
  }

  lemma WordLimit()
    ensures Pow256(4) == WORD
  {
    assert Pow256(1) == 0x100 && Pow256(2) == 0x1_0000 && Pow256(3) == 0x100_0000;
  }

  lemma VersionLaw<P(!new)>(c: Curve<P>)
    requires Encoding(c)
    ensures c.publicVersion < WORD
  {
  }

  lemma PublicKeyLaw<P(!new)>(c: Curve<P>, k: Keychain)
    requires Lawful(c) && Sound(c, k)
    ensures |k.pubkey| == 33 && PubkeyOf(c, k.key) == k.pubkey && PubkeyOf(c, k.pubkey) == k.pubkey
  {
    hide Number, Group, Encoding, Pow256;
    var a := Number(k.key);
    TimesInfinity(c, a);
    Remainder(a, c.order);
    EncodeLaw(c, c.times(a));
    assert k.key == [0] + k.key[1..];
    LeadingZero(k.key[1..]);
  }

  lemma ChildDepth<P(!new)>(c: Curve<P>, k: Keychain, i: nat)
    requires 0 < c.order && i < WORD && Child(c, k, i).Some?
    ensures Child(c, k, i).value.depth == (k.depth + 1) % 256
  {
    hide Number, Big, Pow256;
  }

  lemma WrapTwice(d: nat, n: nat)
    ensures ((d + 1) % 256 + n) % 256 == (d + 1 + n) % 256
  {
  }

  /** Depth is one byte: after a path it counts the steps modulo 256, so it tells how deep a key is only above that. */
  lemma {:induction false} DepthWraps<P(!new)>(c: Curve<P>, k: Keychain, path: seq<nat>)
    requires 0 < c.order && k.depth < 256 && forall i :: 0 <= i < |path| ==> path[i] < WORD
    requires Derive(c, k, path).Some?
    ensures Derive(c, k, path).value.depth == (k.depth + |path|) % 256
    ensures Derive(c, k, path).value.depth == k.depth + |path| <==> k.depth + |path| < 256
    decreases |path|
  {
    hide Child;
    if path != [] {
      ChildDepth(c, k, path[0]);
      DepthWraps(c, Child(c, k, path[0]).value, path[1..]);
      WrapTwice(k.depth, |path| - 1);
    }
  }
}
