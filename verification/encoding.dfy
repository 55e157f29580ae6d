/**
 The byte keys of the store: big-endian integers under a family prefix, and the
 byte order RocksDB iterates in.
 */
module Encoding {
  import opened Types

  type Byte = c: char | c as int < 256
  type Bytes = seq<Byte>

  function ByteOf(n: nat): Byte
    requires n < 256
  {
    n as char
  }

  function Pow256(k: nat): (r: nat)
    ensures r > 0
  {
    if k == 0 then 1 else 256 * Pow256(k - 1)
  }

  lemma {:induction false} Pow256Eight()
    ensures Pow256(8) == TWO64
  {
    assert Pow256(4) == 256 * (256 * (256 * (256 * Pow256(0))));
    assert Pow256(8) == 256 * (256 * (256 * (256 * Pow256(4))));
  }

  /** The value of a byte string, most significant byte first. */
  function Accumulate(s: Bytes): nat {
    if |s| == 0 then 0 else Accumulate(s[..|s| - 1]) * 256 + s[|s| - 1] as int
  }

  /** The `width` low bytes of `value`, most significant first. */
  function BigEndian(value: nat, width: nat): (r: Bytes)
    ensures |r| == width
  {
    if width == 0 then [] else BigEndian(value / 256, width - 1) + [ByteOf(value % 256)]
  }

  function Encoded(value: U64): (r: Bytes)
    ensures |r| == 8
  {
    BigEndian(value, 8)
  }

  /** A string that is not eight bytes long decodes to zero. */
  function Decoded(s: Bytes): (r: U64)
  {
    if |s| != 8 then 0
    else
      AccumulateBound(s);
      Pow256Eight();
      Accumulate(s)
  }

  // ---------------------------------------------------------------- round trips

  lemma {:induction false} AccumulateBound(s: Bytes)
    ensures Accumulate(s) < Pow256(|s|)
  {
    if |s| > 0 {
      AccumulateBound(s[..|s| - 1]);
    }
  }

  lemma {:induction false} AccumulateBigEndian(value: nat, width: nat)
    requires value < Pow256(width)
    ensures Accumulate(BigEndian(value, width)) == value
  {
    if width > 0 {
      var s := BigEndian(value, width);
      ShiftBound(value, Pow256(width - 1));
      AccumulateBigEndian(value / 256, width - 1);
      assert s[..width - 1] == BigEndian(value / 256, width - 1);
    }
  }

  lemma {:induction false} ShiftBound(value: nat, m: nat)
    requires value < 256 * m
    ensures value / 256 < m && value == value / 256 * 256 + value % 256
  {
  }

  lemma {:induction false} Unshift(a: nat, low: nat)
    requires low < 256
    ensures (a * 256 + low) / 256 == a && (a * 256 + low) % 256 == low
  {
  }

  lemma {:induction false} BigEndianAccumulate(s: Bytes)
    ensures BigEndian(Accumulate(s), |s|) == s
  {
    if |s| > 0 {
      var init, last := s[..|s| - 1], s[|s| - 1];
      BigEndianAccumulate(init);
      Unshift(Accumulate(init), last as int);
      assert s == init + [last];
    }
  }

  /** Every 64-bit value survives encoding, and every eight bytes survive decoding. */
  lemma {:induction false} RoundTrip(value: U64, s: Bytes)
    requires |s| == 8
    ensures Decoded(Encoded(value)) == value
    ensures Encoded(Decoded(s)) == s
  {
    Pow256Eight();
    AccumulateBigEndian(value, 8);
    BigEndianAccumulate(s);
  }

  // ---------------------------------------------------------------- the loops

  /** `value >> (8 * i)`. */
  function ShiftRight(value: nat, i: nat): nat {
    if i == 0 then value else ShiftRight(value / 256, i - 1)
  }

  /** Byte `7 - i` of the encoding is the value shifted right by `8 * i` bits, masked. */
  lemma {:induction false} BigEndianByte(value: nat, width: nat, i: nat)
    requires i < width
    ensures BigEndian(value, width)[width - 1 - i] as int == ShiftRight(value, i) % 256
  {
    if i > 0 {
      BigEndianByte(value / 256, width - 1, i - 1);
    }
  }

  method EncodeUint64(value: U64) returns (out: array<Byte>)
    ensures out[..] == Encoded(value)
  {
    out := new Byte[8](_ => ByteOf(0));
    var i := 7;
    while i >= 0
      invariant -1 <= i <= 7
      invariant forall k :: 0 <= k < 7 - i ==> out[k] == Encoded(value)[k]
    {
      BigEndianByte(value, 8, i);
      out[7 - i] := ByteOf(ShiftRight(value, i) % 256);
      i := i - 1;
    }
  }

  method DecodeUint64(value: Bytes) returns (out: U64)
    ensures out == Decoded(value)
  {
    if |value| != 8 {
      return 0;
    }
    var acc := 0;
    for k := 0 to |value|
      invariant acc == Accumulate(value[..k])
    {
      assert value[..k + 1][..k] == value[..k];
      // (acc << 8) | ch: the low byte of acc << 8 is zero, so "or" adds.
      acc := acc * 256 + value[k] as int;
    }
    assert value[..|value|] == value;
    AccumulateBound(value);
    Pow256Eight();
    out := acc;
  }

  // ---------------------------------------------------------------- byte order

  /** The order of the store's iterator: unsigned lexicographic, a prefix first. */
  predicate Less(a: Bytes, b: Bytes) {
    |b| > 0 && (|a| == 0 || a[0] < b[0] || (a[0] == b[0] && Less(a[1..], b[1..])))
  }

  lemma {:induction false} LessIrreflexive(a: Bytes)
    ensures !Less(a, a)
  {
    if |a| > 0 {
      LessIrreflexive(a[1..]);
    }
  }

  lemma {:induction false} LessTransitive(a: Bytes, b: Bytes, c: Bytes)
    requires Less(a, b) && Less(b, c)
    ensures Less(a, c)
  {
    if |a| > 0 && a[0] == b[0] == c[0] {
      LessTransitive(a[1..], b[1..], c[1..]);
    }
  }

  lemma {:induction false} LessTotal(a: Bytes, b: Bytes)
    ensures a == b || Less(a, b) || Less(b, a)
  {
    if |a| > 0 && |b| > 0 && a[0] == b[0] {
      LessTotal(a[1..], b[1..]);
      assert a == [a[0]] + a[1..] && b == [b[0]] + b[1..];
    }
  }

  lemma {:induction false} LessUnderPrefix(p: Bytes, a: Bytes, b: Bytes)
    ensures Less(p + a, p + b) <==> Less(a, b)
  {
    if |p| == 0 {
      assert p + a == a && p + b == b;
    } else {
      LessUnderPrefix(p[1..], a, b);
      assert (p + a)[1..] == p[1..] + a && (p + b)[1..] == p[1..] + b;
    }
  }

  lemma {:induction false} AccumulateHead(s: Bytes)
    requires |s| > 0
    ensures Accumulate(s) == s[0] as int * Pow256(|s| - 1) + Accumulate(s[1..])
  {
    if |s| > 1 {
      var n := |s| - 1;
      var init, tail := s[..n], s[1..];
      AccumulateHead(init);
      assert init[1..] == tail[..n - 1] && tail[n - 1] == s[n] && init[0] == s[0];
      ShiftSum(s[0] as int, Pow256(n - 1), Accumulate(tail[..n - 1]), s[n] as int);
    }
  }

  lemma {:induction false} ShiftSum(x: nat, p: nat, a: nat, low: nat)
    ensures (x * p + a) * 256 + low == x * (256 * p) + (a * 256 + low)
  {
  }

  /** On strings of one length the byte order is the numeric order of their values. */
  lemma {:induction false} LessIsNumeric(a: Bytes, b: Bytes)
    requires |a| == |b|
    ensures Less(a, b) <==> Accumulate(a) < Accumulate(b)
  {
    if |a| > 0 {
      AccumulateHead(a);
      AccumulateHead(b);
      AccumulateBound(a[1..]);
      AccumulateBound(b[1..]);
      LessIsNumeric(a[1..], b[1..]);
      var m := Pow256(|a| - 1);
      if a[0] < b[0] {
        HeadDominates(a[0] as int, b[0] as int, m, Accumulate(a[1..]));
      } else if b[0] < a[0] {
        HeadDominates(b[0] as int, a[0] as int, m, Accumulate(b[1..]));
      }
    }
  }

  lemma {:induction false} HeadDominates(x: nat, y: nat, m: nat, low: nat)
    requires x < y && low < m
    ensures x * m + low < y * m
  {
    var k := y - x - 1;
    assert y * m == x * m + m + k * m;
  }

  // ---------------------------------------------------------------- keys

  const CHANNEL_PREFIX: Bytes := "ch/"
  const TOKEN_PREFIX: Bytes := "token/"
  const MESSAGE_PREFIX: Bytes := "msg/"
  const UUID_PREFIX: Bytes := "uuid/"
  const PREPARING_PREFIX: Bytes := "preparing/"
  const COMMITTED_PREFIX: Bytes := "object/"
  const MAX_SEQ_KEY: Bytes := "meta:max_seq"
  const NEXT_UUID_KEY: Bytes := "meta:next_uuid"
  const NEXT_CHANNEL_ID_KEY: Bytes := "meta:next_channel_id"
  const NEXT_OBJECT_ID_KEY: Bytes := "meta:next_object_id"

  function NumericKey(prefix: Bytes, value: U64): Bytes {
    prefix + Encoded(value)
  }

  function TokenKey(principal: U64, token: Bytes): Bytes {
    NumericKey(TOKEN_PREFIX, principal) + token
  }

  predicate StartsWith(key: Bytes, prefix: Bytes) {
    |prefix| <= |key| && key[..|prefix|] == prefix
  }

  /** A key of the family `prefix`: the prefix followed by exactly eight bytes. */
  predicate IsNumericKey(key: Bytes, prefix: Bytes) {
    |key| == |prefix| + 8 && StartsWith(key, prefix)
  }

  function KeyValue(key: Bytes, prefix: Bytes): U64
    requires IsNumericKey(key, prefix)
  {
    Decoded(key[|prefix|..])
  }

  /** Decoding inverts building a key, in both directions. */
  lemma {:induction false} NumericKeyInverse(prefix: Bytes, value: U64)
    ensures IsNumericKey(NumericKey(prefix, value), prefix)
    ensures KeyValue(NumericKey(prefix, value), prefix) == value
  {
    var key := NumericKey(prefix, value);
    assert key[..|prefix|] == prefix && key[|prefix|..] == Encoded(value);
    RoundTrip(value, Encoded(value));
  }

  lemma {:induction false} KeyValueInverse(key: Bytes, prefix: Bytes)
    requires IsNumericKey(key, prefix)
    ensures NumericKey(prefix, KeyValue(key, prefix)) == key
  {
    RoundTrip(0, key[|prefix|..]);
    assert key == key[..|prefix|] + key[|prefix|..];
  }

  /** Within a family, the iterator's order is the numeric order of the identifiers. */
  lemma {:induction false} NumericKeyOrder(prefix: Bytes, a: U64, b: U64)
    ensures Less(NumericKey(prefix, a), NumericKey(prefix, b)) <==> a < b
  {
    LessUnderPrefix(prefix, Encoded(a), Encoded(b));
    LessIsNumeric(Encoded(a), Encoded(b));
    RoundTrip(a, Encoded(a));
    RoundTrip(b, Encoded(b));
  }

  /** A credential key determines both the principal and the token. */
  lemma {:induction false} TokenKeyInjective(p: U64, t: Bytes, q: U64, u: Bytes)
    requires TokenKey(p, t) == TokenKey(q, u)
    ensures p == q && t == u
  {
    var head := |TOKEN_PREFIX| + 8;
    assert TokenKey(p, t)[..head] == NumericKey(TOKEN_PREFIX, p);
    assert TokenKey(q, u)[..head] == NumericKey(TOKEN_PREFIX, q);
    assert TokenKey(p, t)[head..] == t;
    assert TokenKey(q, u)[head..] == u;
    NumericKeyInverse(TOKEN_PREFIX, p);
    NumericKeyInverse(TOKEN_PREFIX, q);
  }

  // ---------------------------------------------------------------- keys under a prefix

  lemma {:induction false} StartsWithHead(key: Bytes, prefix: Bytes)
    ensures StartsWith(key, prefix) <==>
              |prefix| == 0 || (|key| > 0 && key[0] == prefix[0] && StartsWith(key[1..], prefix[1..]))
  {
    if |prefix| > 0 && |prefix| <= |key| {
      assert key[..|prefix|] == [key[0]] + key[1..][..|prefix| - 1];
      assert prefix == [prefix[0]] + prefix[1..];
    }
  }

  lemma {:induction false} PrefixNotBelow(prefix: Bytes, key: Bytes)
    requires StartsWith(key, prefix)
    ensures !Less(key, prefix)
  {
    StartsWithHead(key, prefix);
    if |prefix| > 0 {
      PrefixNotBelow(prefix[1..], key[1..]);
    }
  }

  /** The keys with a prefix are contiguous: behind the first key above them there is none. */
  lemma {:induction false} PrefixEnds(prefix: Bytes, key: Bytes, later: Bytes)
    requires !Less(key, prefix) && !StartsWith(key, prefix) && Less(key, later)
    ensures !StartsWith(later, prefix)
  {
    StartsWithHead(key, prefix);
    StartsWithHead(later, prefix);
    if key[0] == prefix[0] == later[0] {
      PrefixEnds(prefix[1..], key[1..], later[1..]);
    }
  }

  lemma {:induction false} PrefixFirst(prefix: Bytes, rest: Bytes)
    requires |rest| > 0
    ensures Less(prefix, prefix + rest)
  {
    if |prefix| > 0 {
      assert (prefix + rest)[1..] == prefix[1..] + rest;
      PrefixFirst(prefix[1..], rest);
    }
  }
}
