/** Script numbers: little-endian magnitude, sign in the top bit of the last byte. */
module ScriptNum {
  import opened Basics
  import opened ScriptCodec

  /** The bytes of `n` without leading zeros, least significant first. */
  function Digits(n: nat): (b: Bytes)
    ensures n == 0 <==> b == []
  {
    if n == 0 then [] else [(n % 256) as Byte] + Digits(n / 256)
  }

  function WithSign(b: Bytes, negative: bool): Bytes
    requires b != []
  {
    var top := b[|b| - 1] as int;
    if top >= 128 then b + [if negative then 0x80 else 0x00]
    else b[..|b| - 1] + [(top + if negative then 128 else 0) as Byte]
  }

  /** `getvch`: the shortest encoding of `n`. */
  function Encode(n: int): Bytes {
    if n == 0 then [] else WithSign(Digits(if n < 0 then -n else n), n < 0)
  }

  /** `setvch`: the value of any byte string, extra leading zeros and negative zero included. */
  function Decode(v: Bytes): int {
    if v == [] then 0
    else
      var top := v[|v| - 1] as int;
      var size := LittleEndian(v[..|v| - 1] + [(top % 128) as Byte]);
      if top >= 128 then -(size as int) else size
  }

  /** `CastToBigNum`: `None` is the overflow exception. */
  function ToNumber(v: Bytes, limit: nat): Option<int> {
    if |v| > limit then None else Some(Decode(v))
  }

  /** `CastToBool`: a loop for the first byte that is not zero. */
  method CastToBool(v: Bytes) returns (r: bool)
    ensures r == ToBool(v)
  {
    for i := 0 to |v|
      invariant forall j :: 0 <= j < i ==> v[j] == 0
    {
      if v[i] != 0 {
        return i != |v| - 1 || v[i] != 0x80;
      }
    }
    return false;
  }

  /** True unless every byte is zero but for a sign bit in the last one. */
  predicate ToBool(v: Bytes) {
    !forall i :: 0 <= i < |v| ==> v[i] == 0 || (i == |v| - 1 && v[i] == 0x80)
  }

  lemma {:induction false} DigitsValue(n: nat)
    ensures LittleEndian(Digits(n)) == n
    ensures n > 0 ==> Digits(n)[|Digits(n)| - 1] != 0
  {
    if n > 0 {
      DigitsValue(n / 256);
      assert Digits(n)[1..] == Digits(n / 256);
    }
  }

  lemma {:induction false} LittleEndianZero(b: Bytes)
    ensures LittleEndian(b + [0]) == LittleEndian(b)
  {
    if b == [] {
      assert LittleEndian([0 as Byte]) == LittleEndian([0 as Byte][1..]) * 256;
    } else {
      LittleEndianZero(b[1..]);
      assert (b + [0])[1..] == b[1..] + [0];
    }
  }

  /** Decoding an encoded number gives it back. */
  lemma NumberRoundTrip(n: int)
    ensures Decode(Encode(n)) == n
  {
    hide LittleEndian, Digits;
    if n != 0 {
      var size: nat := if n < 0 then -n else n;
      var b := Digits(size);
      DigitsValue(size);
      LittleEndianZero(b);
      var last := |b| - 1;
      assert b[..last] + [b[last]] == b;
      var v := Encode(n);
      if b[last] >= 128 {
        assert v[..|v| - 1] == b;
      } else {
        assert v[..|v| - 1] == b[..last];
      }
    }
  }

  lemma {:induction false} LittleEndianPositive(b: Bytes)
    ensures LittleEndian(b) == 0 <==> forall i :: 0 <= i < |b| ==> b[i] == 0
  {
    if b != [] {
      LittleEndianPositive(b[1..]);
      assert (forall i :: 0 <= i < |b| ==> b[i] == 0) <==> b[0] == 0 && forall i :: 0 <= i < |b[1..]| ==> b[1..][i] == 0 by {
        assert forall i :: 0 < i < |b| ==> b[i] == b[1..][i - 1];
      }
    }
  }

  /** A value is true exactly when its number is not zero. */
  lemma BoolIsNonZero(v: Bytes)
    ensures ToBool(v) <==> Decode(v) != 0
  {
    hide LittleEndian;
    if v != [] {
      var last := |v| - 1;
      var b := v[..last] + [((v[last] as int) % 128) as Byte];
      LittleEndianPositive(b);
      assert forall i :: 0 <= i < last ==> b[i] == v[i];
      assert b[last] == 0 <==> v[last] == 0 || v[last] == 0x80;
      if ToBool(v) {
        var i :| 0 <= i < |v| && v[i] != 0 && !(i == last && v[i] == 0x80);
        assert b[i] != 0;
      }
    }
  }

  // ------------------------------------------------------- the shortest encoding

  lemma {:induction false} LittleEndianBelow(b: Bytes)
    ensures LittleEndian(b) < Pow256(|b|)
    decreases |b|
  {
    if b != [] {
      LittleEndianBelow(b[1..]);
    }
  }

  lemma {:induction false} DigitsSize(n: nat)
    requires n > 0
    ensures Pow256(|Digits(n)| - 1) <= n
    decreases n
  {
    if n >= 256 {
      DigitsSize(n / 256);
      assert Digits(n)[1..] == Digits(n / 256);
      assert Pow256(|Digits(n)| - 1) == 256 * Pow256(|Digits(n / 256)| - 1);
    } else {
      assert Digits(n / 256) == [];
      assert |Digits(n)| == 1 && Pow256(0) == 1;
    }
  }

  /** The size of a number whose last byte, before the sign, is given. */
  lemma TopByte(b: Bytes)
    requires b != []
    ensures
      var n, top := |b| - 1, b[|b| - 1] as int;
      top * Pow256(n) <= LittleEndian(b) < (top + 1) * Pow256(n)
  {
    hide LittleEndian, Pow256;
    var n := |b| - 1;
    assert b == b[..n] + [b[n]];
    LittleEndianJoins(b[..n], [b[n]]);
    LittleEndianBelow(b[..n]);
    Spread(Pow256(n), b[n] as int, LittleEndian(b[..n]));
  }

  lemma Spread(p: int, top: int, low: int)
    requires 0 <= low < p
    ensures top * p <= low + p * top < (top + 1) * p
  {
  }

  lemma Below(a: nat, b: nat, p: nat)
    requires a <= b
    ensures a * p <= b * p
  {
  }

  lemma {:induction false} Pow256Grows(a: nat, b: nat)
    requires a <= b
    ensures Pow256(a) <= Pow256(b)
  {
    if a < b {
      Pow256Grows(a, b - 1);
    }
  }

  /** The bytes of a number with the sign taken off. */
  function Unsigned(v: Bytes): Bytes
    requires v != []
  {
    v[..|v| - 1] + [((v[|v| - 1] as int) % 128) as Byte]
  }

  lemma DecodeSize(v: Bytes)
    requires v != []
    ensures
      var n := Decode(v);
      (if n < 0 then -n else n) == LittleEndian(Unsigned(v))
  {
    hide LittleEndian;
  }

  lemma UnsignedTop(v: Bytes)
    requires v != []
    ensures |Unsigned(v)| == |v| && Unsigned(v)[|v| - 1] as int < 128
  {
  }

  /** A string of `k` bytes holds less than half of what its bytes could, for one bit is the sign. */
  lemma DecodeBelow(v: Bytes)
    requires v != []
    ensures
      var n := Decode(v);
      (if n < 0 then -n else n) < 128 * Pow256(|v| - 1)
  {
    hide LittleEndian, Pow256, Decode, Unsigned;
    DecodeSize(v);
    UnsignedTop(v);
    var b := Unsigned(v);
    TopByte(b);
    Below(b[|v| - 1] as int + 1, 128, Pow256(|v| - 1));
  }

  lemma EncodeNeeds(n: int)
    requires n != 0
    ensures |Encode(n)| > 0
    ensures |Encode(n)| > 1 ==> 128 * Pow256(|Encode(n)| - 2) <= (if n < 0 then -n else n)
  {
    hide LittleEndian;
    var size: nat := if n < 0 then -n else n;
    var b := Digits(size);
    DigitsValue(size);
    var last := |b| - 1;
    if b[last] >= 128 {
      TopByte(b);
      Below(128, b[last] as int, Pow256(last));
    } else if last > 0 {
      DigitsSize(size);
      assert Pow256(last) == 256 * Pow256(last - 1);
    }
  }

  /** No shorter string stands for the same number. */
  lemma EncodeShortest(n: int, v: Bytes)
    requires Decode(v) == n
    ensures |Encode(n)| <= |v|
  {
    hide LittleEndian, Digits, Pow256, Encode, Decode;
    if n == 0 {
      assert Encode(0) == [] by {
        EncodeNone();
      }
    } else {
      EncodeNeeds(n);
      if v == [] {
        DecodeNone();
      } else {
        DecodeBelow(v);
        if |v| < |Encode(n)| {
          Pow256Grows(|v| - 1, |Encode(n)| - 2);
        }
      }
    }
  }

  lemma EncodeNone()
    ensures Encode(0) == []
  {
  }

  lemma DecodeNone()
    ensures Decode([]) == 0
  {
  }
}
