/** Base 128 varints of 64-bit words, as the Protocol Buffers Encoding guide defines them. */
module Varints {

  type Byte = b: int | 0 <= b < 256

  /** An unsigned 64-bit word. */
  type Word = w: int | 0 <= w < 0x1_0000_0000_0000_0000

  const MAX_VARINT_LEN := 10

  datatype Read = Malformed | Read(value: Word, length: nat)

  /** Least significant group first; every byte but the last has its top bit set. */
  function Varint(v: nat): (r: seq<Byte>)
    ensures r != []
  {
    if v < 128 then [v] else [v % 128 + 128] + Varint(v / 128)
  }

  /** One more than the greatest value of at most n bytes that still fits the word: the tenth byte holds one bit. */
  function Ceiling(n: nat): (c: nat)
    ensures c >= 1
  {
    if n <= 1 then 2 else 128 * Ceiling(n - 1)
  }

  lemma WordCeiling()
    ensures Ceiling(MAX_VARINT_LEN) == 0x1_0000_0000_0000_0000
  {
    assert Ceiling(4) == 2 * 128 * 128 * 128;
    assert Ceiling(7) == 128 * 128 * 128 * Ceiling(4);
  }

  /** The varint at the front of b, of at most n bytes. */
  function ReadUpTo(b: seq<Byte>, n: nat): (r: (nat, nat))
    ensures r.1 <= |b| && r.1 <= n
    ensures r.0 < Ceiling(n)
  {
    if b == [] || n == 0 || (n == 1 && b[0] > 1) then (0, 0)
    else if b[0] < 128 then
      assert n > 1 ==> Ceiling(n) == 128 * Ceiling(n - 1);
      (b[0], 1)
    else
      var rest := ReadUpTo(b[1..], n - 1);
      if rest.1 == 0 then (0, 0) else (b[0] - 128 + 128 * rest.0, rest.1 + 1)
  }

  function ReadVarint(b: seq<Byte>): (r: Read)
    ensures r.Read? ==> 0 < r.length <= |b|
  {
    var (v, n) := ReadUpTo(b, MAX_VARINT_LEN);
    WordCeiling();
    if n == 0 then Malformed else Read(v, n)
  }

  lemma {:induction false} ReadsBackUpTo(v: nat, rest: seq<Byte>, n: nat)
    requires n >= 1 && v < Ceiling(n)
    ensures ReadUpTo(Varint(v) + rest, n) == (v, |Varint(v)|)
    decreases n
  {
    if v >= 128 {
      ReadsBackUpTo(v / 128, rest, n - 1);
      assert (Varint(v) + rest)[1..] == Varint(v / 128) + rest;
    }
  }

  /** Whatever follows it, a written varint is read back. */
  lemma VarintReadsBack(v: Word, rest: seq<Byte>)
    ensures ReadVarint(Varint(v) + rest) == Read(v, |Varint(v)|)
    ensures |Varint(v)| <= MAX_VARINT_LEN
  {
    WordCeiling();
    ReadsBackUpTo(v, rest, MAX_VARINT_LEN);
  }

  lemma {:induction false} ReadsPrefixUpTo(a: seq<Byte>, b: seq<Byte>, n: nat)
    requires ReadUpTo(a, n).1 > 0
    ensures ReadUpTo(a + b, n) == ReadUpTo(a, n)
    ensures ReadUpTo(a[..ReadUpTo(a, n).1], n) == ReadUpTo(a, n)
    decreases n
  {
    if a[0] >= 128 {
      ReadsPrefixUpTo(a[1..], b, n - 1);
      assert (a + b)[1..] == a[1..] + b;
      var k := ReadUpTo(a, n).1;
      assert a[..k][1..] == a[1..][..k - 1];
    }
  }

  /** What follows a varint does not matter. */
  lemma ReadsPrefix(a: seq<Byte>, b: seq<Byte>)
    requires ReadVarint(a).Read?
    ensures ReadVarint(a + b) == ReadVarint(a)
    ensures ReadVarint(a[..ReadVarint(a).length]) == ReadVarint(a)
  {
    ReadsPrefixUpTo(a, b, MAX_VARINT_LEN);
  }

  lemma {:induction false} CutUpTo(v: nat, k: nat, n: nat)
    requires k < |Varint(v)|
    ensures ReadUpTo(Varint(v)[..k], n).1 == 0
    decreases n
  {
    if k > 0 && n > 0 {
      CutUpTo(v / 128, k - 1, n - 1);
      assert Varint(v)[..k][1..] == Varint(v / 128)[..k - 1];
    }
  }

  /** A varint cut short is not read. */
  lemma CutVarint(v: nat, k: nat)
    requires k < |Varint(v)|
    ensures ReadVarint(Varint(v)[..k]) == Malformed
  {
    CutUpTo(v, k, MAX_VARINT_LEN);
  }

  /** Writes v at the front of the scratch array. */
  method PutUvarint(scratch: array<Byte>, v: Word) returns (n: nat)
    requires scratch.Length == MAX_VARINT_LEN
    modifies scratch
    ensures n <= MAX_VARINT_LEN && scratch[..n] == Varint(v)
  {
    hide Varint, Ceiling;
    var x: nat, i := v, 0;
    WordCeiling();
    assert scratch[..0] + Varint(x) == Varint(v);
    while x >= 128
      invariant 0 <= i < MAX_VARINT_LEN
      invariant x < Ceiling(MAX_VARINT_LEN - i)
      invariant scratch[..i] + Varint(x) == Varint(v)
      decreases x
    {
      VarintStep(x, MAX_VARINT_LEN - i);
      ghost var done := scratch[..i];
      scratch[i] := x % 128 + 128;
      assert scratch[..i + 1] == done + [x % 128 + 128];
      assert done + ([x % 128 + 128] + Varint(x / 128)) == done + [x % 128 + 128] + Varint(x / 128);
      x, i := x / 128, i + 1;
    }
    VarintStep(x, MAX_VARINT_LEN - i);
    ghost var done := scratch[..i];
    scratch[i] := x;
    assert scratch[..i + 1] == done + [x];
    return i + 1;
  }

  lemma VarintStep(x: nat, n: nat)
    ensures x < 128 ==> Varint(x) == [x]
    ensures x >= 128 ==> Varint(x) == [x % 128 + 128] + Varint(x / 128)
    ensures 128 <= x < Ceiling(n) ==> n > 1 && x / 128 < Ceiling(n - 1)
  {}

  /**
    n is zero when the input ends too early, negative when the value does not fit the word.
    The invariant x < scale makes or-ing in the next group the same as adding it.
   */
  method Uvarint(b: seq<Byte>) returns (v: Word, n: int)
    ensures ReadVarint(b) == if n <= 0 then Malformed else Read(v, n)
  {
    hide ReadUpTo, Rest;
    var x, scale := 0, 1;
    RestStarts(b);
    for i := 0 to |b|
      invariant i <= MAX_VARINT_LEN
      invariant 0 <= x < scale
      invariant Rest(b, i, x, scale) == ReadUpTo(b, MAX_VARINT_LEN)
    {
      RestStep(b, i, x, scale);
      if i == MAX_VARINT_LEN {
        return 0, -(i + 1);
      }
      var low: int := b[i];
      if low < 128 {
        if i == MAX_VARINT_LEN - 1 && low > 1 {
          return 0, -(i + 1);
        }
        WordCeiling();
        return x + low * scale, i + 1;
      }
      Regroup(x, low - 128, 0, scale);
      x := x + (low - 128) * scale;
      scale := 128 * scale;
    }
    RestEnds(b, x, scale);
    return 0, 0;
  }

  /** The whole reading, once i bytes worth x have been read and the next counts scale. */
  ghost function Rest(b: seq<Byte>, i: nat, x: int, scale: int): (int, int)
    requires i <= |b| && i <= MAX_VARINT_LEN
  {
    var rest := ReadUpTo(b[i..], MAX_VARINT_LEN - i);
    if rest.1 == 0 then (0, 0) else (x + rest.0 * scale, i + rest.1)
  }

  lemma RestStarts(b: seq<Byte>)
    ensures Rest(b, 0, 0, 1) == ReadUpTo(b, MAX_VARINT_LEN)
  {
    assert b[0..] == b;
    NoValue(b, MAX_VARINT_LEN);
  }

  lemma NoValue(b: seq<Byte>, n: nat)
    ensures ReadUpTo(b, n).1 == 0 ==> ReadUpTo(b, n).0 == 0
  {}

  lemma RestEnds(b: seq<Byte>, x: int, scale: int)
    requires |b| <= MAX_VARINT_LEN
    ensures Rest(b, |b|, x, scale) == (0, 0)
  {}

  lemma RestStep(b: seq<Byte>, i: nat, x: int, scale: int)
    requires i < |b| && i <= MAX_VARINT_LEN
    ensures Rest(b, i, x, scale) ==
              if i == MAX_VARINT_LEN || (i == MAX_VARINT_LEN - 1 && 1 < b[i] < 128) then (0, 0)
              else if b[i] < 128 then (x + (b[i] as int) * scale, i + 1)
              else Rest(b, i + 1, x + (b[i] as int - 128) * scale, 128 * scale)
  {
    assert b[i..][1..] == b[i + 1..];
    if i < MAX_VARINT_LEN && b[i] >= 128 {
      Regroup(x, b[i] - 128, ReadUpTo(b[i + 1..], MAX_VARINT_LEN - i - 1).0, scale);
    }
  }

  lemma Regroup(x: int, low: nat, high: nat, scale: int)
    requires low < 128
    ensures x + (low + 128 * high) * scale == (x + low * scale) + high * (128 * scale)
    ensures 0 <= x < scale ==> 0 <= x + low * scale < 128 * scale
  {
    if 0 <= x < scale {
      assert 0 <= low * scale <= 127 * scale;
    }
  }
}
