/** Object tokens: 32 random bytes in unpadded Base64URL (section 5 of RFC 4648). */
module Tokens {

  type Octet = n: nat | n < 256

  const ENCODED_BYTES := 43

  /** The validator every stored token must pass. */
  predicate IsBase64UrlToken(token: string) {
    |token| == ENCODED_BYTES && forall i :: 0 <= i < |token| ==> IsTokenChar(token[i])
  }

  predicate IsTokenChar(c: char) {
    'A' <= c <= 'Z' || 'a' <= c <= 'z' || '0' <= c <= '9' || c == '-' || c == '_'
  }

  /** The alphabet of section 5: A-Z, a-z, 0-9, '-' and '_', in this order. */
  function Symbol(v: nat): (c: char)
    requires v < 64
  {
    if v < 26 then ('A' as int + v) as char
    else if v < 52 then ('a' as int + (v - 26)) as char
    else if v < 62 then ('0' as int + (v - 52)) as char
    else if v == 62 then '-'
    else '_'
  }

  /** The position of a symbol in the alphabet, computed from its character ranges. */
  function SymbolValue(c: char): (v: nat)
    requires IsTokenChar(c)
    ensures v < 64
  {
    if 'A' <= c <= 'Z' then c as int - 'A' as int
    else if 'a' <= c <= 'z' then 26 + (c as int - 'a' as int)
    else if '0' <= c <= '9' then 52 + (c as int - '0' as int)
    else if c == '-' then 62
    else 63
  }

  lemma {:induction false} SymbolInverse(v: nat)
    requires v < 64
    ensures IsTokenChar(Symbol(v)) && SymbolValue(Symbol(v)) == v
  {
  }

  /** The four symbols of a 24-bit group. */
  function Group(value: nat): (r: string)
    requires value < 0x100_0000
    ensures |r| == 4
  {
    [Symbol(value / 0x4_0000), Symbol(value / 0x1000 % 64), Symbol(value / 64 % 64), Symbol(value % 64)]
  }

  function GroupValue(s: string): (v: nat)
    requires |s| == 4 && forall i :: 0 <= i < 4 ==> IsTokenChar(s[i])
    ensures v < 0x100_0000
  {
    ((SymbolValue(s[0]) * 64 + SymbolValue(s[1])) * 64 + SymbolValue(s[2])) * 64 + SymbolValue(s[3])
  }

  lemma {:induction false} Shifts(value: nat)
    ensures value / 0x1000 == value / 64 / 64
    ensures value / 0x4_0000 == value / 64 / 64 / 64
  {
  }

  lemma {:induction false} GroupInverse(value: nat)
    requires value < 0x100_0000
    ensures forall i :: 0 <= i < 4 ==> IsTokenChar(Group(value)[i])
    ensures GroupValue(Group(value)) == value
  {
    SymbolInverse(value / 0x4_0000);
    SymbolInverse(value / 0x1000 % 64);
    SymbolInverse(value / 64 % 64);
    SymbolInverse(value % 64);
    Shifts(value);
  }

  function Pack(a: Octet, b: Octet, c: Octet): (v: nat)
    ensures v < 0x100_0000
  {
    a * 0x1_0000 + b * 0x100 + c
  }

  /** Three bytes give four symbols; one or two trailing bytes give two or three. */
  function Encode(bytes: seq<Octet>): string {
    if |bytes| == 0 then ""
    else if |bytes| == 1 then Group(Pack(bytes[0], 0, 0))[..2]
    else if |bytes| == 2 then Group(Pack(bytes[0], bytes[1], 0))[..3]
    else Group(Pack(bytes[0], bytes[1], bytes[2])) + Encode(bytes[3..])
  }

  /** The bytes an unpadded Base64URL text stands for. */
  function Decode(text: string): seq<Octet>
    requires forall i :: 0 <= i < |text| ==> IsTokenChar(text[i])
  {
    if |text| < 2 then []
    else if |text| == 2 then [GroupValue(text + "AA") / 0x1_0000]
    else if |text| == 3 then
      var v := GroupValue(text + "A");
      [v / 0x1_0000, v / 0x100 % 0x100]
    else
      var v := GroupValue(text[..4]);
      [v / 0x1_0000, v / 0x100 % 0x100, v % 0x100] + Decode(text[4..])
  }

  lemma {:induction false} LowBitsZero(a: Octet, b: Octet)
    ensures Pack(a, 0, 0) % 64 == 0 && Pack(a, 0, 0) / 64 % 64 == 0
    ensures Pack(a, b, 0) % 64 == 0
  {
    MultipleOf64(0x400 * a);
    MultipleOf64(16 * a);
    MultipleOf64(0x400 * a + 4 * b);
  }

  lemma {:induction false} MultipleOf64(k: nat)
    ensures 64 * k % 64 == 0 && 64 * k / 64 == k
  {
  }

  /** A short group, padded with zero symbols, is the group of its zero-extended bytes. */
  lemma {:induction false} ShortGroup(value: nat, k: nat)
    requires value < 0x100_0000 && 2 <= k <= 3
    requires value % 64 == 0 && (k == 2 ==> value / 64 % 64 == 0)
    ensures k == 2 ==> Group(value)[..k] + "AA" == Group(value)
    ensures k == 3 ==> Group(value)[..k] + "A" == Group(value)
  {
    assert Symbol(0) == 'A';
  }

  lemma {:induction false} Unpack(a: Octet, b: Octet, c: Octet)
    ensures Pack(a, b, c) / 0x1_0000 == a
    ensures Pack(a, b, c) / 0x100 % 0x100 == b
    ensures Pack(a, b, c) % 0x100 == c
  {
    assert Pack(a, b, c) / 0x100 == 0x100 * a + b;
  }

  lemma {:induction false} EncodeSymbols(bytes: seq<Octet>)
    ensures forall i :: 0 <= i < |Encode(bytes)| ==> IsTokenChar(Encode(bytes)[i])
    ensures |Encode(bytes)| == (4 * |bytes| + 2) / 3
  {
    if |bytes| == 1 {
      GroupInverse(Pack(bytes[0], 0, 0));
    } else if |bytes| == 2 {
      GroupInverse(Pack(bytes[0], bytes[1], 0));
    } else if |bytes| > 2 {
      GroupInverse(Pack(bytes[0], bytes[1], bytes[2]));
      EncodeSymbols(bytes[3..]);
    }
  }

  lemma {:induction false} DecodeGroup(v: nat, rest: string)
    requires v < 0x100_0000
    requires forall i :: 0 <= i < |rest| ==> IsTokenChar(rest[i])
    ensures forall i :: 0 <= i < |Group(v) + rest| ==> IsTokenChar((Group(v) + rest)[i])
    ensures Decode(Group(v) + rest) == [v / 0x1_0000, v / 0x100 % 0x100, v % 0x100] + Decode(rest)
  {
    GroupInverse(v);
    var text := Group(v) + rest;
    assert text[..4] == Group(v) && text[4..] == rest;
  }

  /** Decoding a token gives back the random bytes, so distinct bytes give distinct tokens. */
  lemma {:induction false} DecodeEncode(bytes: seq<Octet>)
    ensures forall i :: 0 <= i < |Encode(bytes)| ==> IsTokenChar(Encode(bytes)[i])
    ensures Decode(Encode(bytes)) == bytes
  {
    EncodeSymbols(bytes);
    if |bytes| == 1 {
      DecodeOne(bytes[0]);
      assert bytes == [bytes[0]];
    } else if |bytes| == 2 {
      DecodeTwo(bytes[0], bytes[1]);
      assert bytes == [bytes[0], bytes[1]];
    } else if |bytes| > 2 {
      DecodeEncode(bytes[3..]);
      DecodeGroup(Pack(bytes[0], bytes[1], bytes[2]), Encode(bytes[3..]));
      Unpack(bytes[0], bytes[1], bytes[2]);
      assert bytes == [bytes[0], bytes[1], bytes[2]] + bytes[3..];
    }
  }

  lemma {:induction false} DecodeOne(a: Octet)
    ensures var text := Group(Pack(a, 0, 0))[..2];
            && (forall i :: 0 <= i < 2 ==> IsTokenChar(text[i]))
            && Decode(text) == [a]
  {
    GroupInverse(Pack(a, 0, 0));
    LowBitsZero(a, 0);
    ShortGroup(Pack(a, 0, 0), 2);
    Unpack(a, 0, 0);
  }

  lemma {:induction false} DecodeTwo(a: Octet, b: Octet)
    ensures var text := Group(Pack(a, b, 0))[..3];
            && (forall i :: 0 <= i < 3 ==> IsTokenChar(text[i]))
            && Decode(text) == [a, b]
  {
    GroupInverse(Pack(a, b, 0));
    LowBitsZero(a, b);
    ShortGroup(Pack(a, b, 0), 3);
    Unpack(a, b, 0);
  }

  /** `GenerateObjectToken` on the bytes the random source delivered. */
  method GenerateObjectToken(bytes: seq<Octet>) returns (token: string)
    requires |bytes| == 32
    ensures IsBase64UrlToken(token) && |token| == 43
    ensures Decode(token) == bytes
  {
    token := EncodeGroups(bytes);
    EncodeSymbols(bytes);
    DecodeEncode(bytes);
  }

  /** The encoding loop of `GenerateObjectToken`. */
  method EncodeGroups(bytes: seq<Octet>) returns (token: string)
    ensures token == Encode(bytes)
  {
    assert bytes[0..] == bytes;
    token := "";
    var index := 0;
    while index + 3 <= |bytes|
      invariant 0 <= index <= |bytes|
      invariant token + Encode(bytes[index..]) == Encode(bytes)
    {
      EncodeFrom(bytes, index);
      var group := Group(Pack(bytes[index], bytes[index + 1], bytes[index + 2]));
      ghost var after := Encode(bytes[index + 3..]);
      assert token + (group + after) == (token + group) + after;
      token := token + group;
      index := index + 3;
    }
    EncodeTail(bytes, index);
    var remaining := |bytes| - index;
    if remaining == 1 {
      token := token + Group(Pack(bytes[index], 0, 0))[..2];
    } else if remaining == 2 {
      token := token + Group(Pack(bytes[index], bytes[index + 1], 0))[..3];
    }
  }

  lemma {:induction false} EncodeFrom(bytes: seq<Octet>, index: nat)
    requires index + 3 <= |bytes|
    ensures Encode(bytes[index..]) ==
            Group(Pack(bytes[index], bytes[index + 1], bytes[index + 2])) + Encode(bytes[index + 3..])
  {
    assert bytes[index..][3..] == bytes[index + 3..];
  }

  lemma {:induction false} EncodeTail(bytes: seq<Octet>, index: nat)
    requires |bytes| - 3 < index <= |bytes|
    ensures var r := |bytes| - index;
            && (r == 0 ==> Encode(bytes[index..]) == "")
            && (r == 1 ==> Encode(bytes[index..]) == Group(Pack(bytes[index], 0, 0))[..2])
            && (r == 2 ==> Encode(bytes[index..]) == Group(Pack(bytes[index], bytes[index + 1], 0))[..3])
  {
    if |bytes| - index == 1 {
      assert bytes[index..] == [bytes[index]];
    } else if |bytes| - index == 2 {
      assert bytes[index..] == [bytes[index], bytes[index + 1]];
    }
  }
}
