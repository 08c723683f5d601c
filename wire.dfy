/** The byte-level encodings of the host's framed stdin/stdout protocol
    (output_stream / input_stream in src/utils.h), as functions on byte
    sequences, with the round-trip and shape lemmas they satisfy.
    Native byte order is taken to be little-endian; the byte-order word
    lets the parent check that. */
module Wire {

  type Byte = b: int | 0 <= b < 0x100
  type Int8 = x: int | -0x80 <= x < 0x80
  type Int16 = x: int | -0x8000 <= x < 0x8000
  type Int32 = x: int | -0x8000_0000 <= x < 0x8000_0000
  type Int64 = x: int | -0x8000_0000_0000_0000 <= x < 0x8000_0000_0000_0000

  /** A float is opaque here: it is carried as its native bytes. */
  type Float32 = s: seq<Byte> | |s| == 4 witness [0, 0, 0, 0]
  type Float64 = s: seq<Byte> | |s| == 8 witness [0, 0, 0, 0, 0, 0, 0, 0]

  /** The bit pattern of 0.0f. */
  const ZeroFloat: Float32 := [0, 0, 0, 0]

  /** Result of decoding a value from the front of the remaining input: the
      value and the number of bytes consumed. */
  datatype Decoded<T> = Decoded(value: T, size: nat)

  datatype Option<T> = None | Some(value: T)

  function Min(a: int, b: int): int { if a <= b then a else b }

  function Pow256(n: nat): (r: nat)
    ensures r >= 1
  {
    if n == 0 then 1 else 0x100 * Pow256(n - 1)
  }

  function Pow128(n: nat): (r: nat)
    ensures r >= 1
  {
    if n == 0 then 1 else 0x80 * Pow128(n - 1)
  }

  // ---------------------------------------------------------------------
  // Fixed-width values: output_stream::write<T> / input_stream::read<T>
  // ---------------------------------------------------------------------

  /** The n native bytes of x, least significant first; negative values in
      two's complement (Dafny's % and / are Euclidean, i.e. floor for a
      positive divisor). */
  function LittleEndian(x: int, n: nat): (r: seq<Byte>)
    ensures |r| == n
    decreases n
  {
    if n == 0 then [] else [x % 0x100] + LittleEndian(x / 0x100, n - 1)
  }

  function UnsignedOf(s: seq<Byte>): nat
  {
    if s == [] then 0 else s[0] + 0x100 * UnsignedOf(s[1..])
  }

  /** The two's complement value of the little-endian bytes s. */
  function SignedOf(s: seq<Byte>): int
  {
    var u := UnsignedOf(s);
    if 2 * u >= Pow256(|s|) then u - Pow256(|s|) else u
  }

  function ToInt8(x: int): Int8
  {
    var u := x % 0x100;
    if u < 0x80 then u else u - 0x100
  }

  function ToInt32(x: int): Int32
  {
    var u := x % 0x1_0000_0000;
    if u < 0x8000_0000 then u else u - 0x1_0000_0000
  }

  function ToInt64(x: int): Int64
  {
    var u := x % 0x1_0000_0000_0000_0000;
    if u < 0x8000_0000_0000_0000 then u else u - 0x1_0000_0000_0000_0000
  }

  lemma {:induction false} ToInt32InRange(x: int)
    requires -0x8000_0000 <= x < 0x8000_0000
    ensures ToInt32(x) == x
  {
    if x >= 0 {
      DivModUnique(x, 0x1_0000_0000, 0, x);
    } else {
      DivModUnique(x, 0x1_0000_0000, -1, x + 0x1_0000_0000);
    }
  }

  lemma {:induction false} ToInt64InRange(x: int)
    requires -0x8000_0000_0000_0000 <= x < 0x8000_0000_0000_0000
    ensures ToInt64(x) == x
  {
    if x >= 0 {
      DivModUnique(x, 0x1_0000_0000_0000_0000, 0, x);
    } else {
      DivModUnique(x, 0x1_0000_0000_0000_0000, -1, x + 0x1_0000_0000_0000_0000);
    }
  }

  /** Euclidean division is determined by its quotient and remainder. */
  lemma {:induction false} DivModUnique(x: int, d: int, q: int, r: int)
    requires d > 0 && 0 <= r < d && x == d * q + r
    ensures x / d == q && x % d == r
  {
    var q', r' := x / d, x % d;
    assert d * q' + r' == d * q + r;
    if q > q' {
      MulAtLeast(d, q - q');
      assert false;
    } else if q < q' {
      MulAtLeast(d, q' - q);
      assert false;
    }
  }

  lemma {:induction false} MulAtLeast(d: int, k: int)
    requires d > 0 && k >= 1
    ensures d * k >= d
  {
    var j := k - 1;
    assert d * k == d + d * j;
  }

  /** Channel i of a buffer of channels of `size` samples each occupies
      [i * size, i * size + size), which ends inside any buffer of j > i
      channels. */
  lemma {:induction false} ChannelBounds(i: int, j: int, size: int)
    ensures 0 <= i < j && size >= 0 ==> 0 <= i * size && i * size + size <= j * size
  {
    if 0 <= i < j && size >= 0 {
      assert j * size == i * size + (j - i) * size;
      MulAtLeastZero(j - i - 1, size);
      MulAtLeastZero(i, size);
      assert (j - i) * size == size + (j - i - 1) * size;
    }
  }

  lemma {:induction false} MulAtLeastZero(a: int, b: int)
    requires a >= 0 && b >= 0
    ensures a * b >= 0
  {
  }

  lemma {:induction false} UnsignedOfLittleEndian(x: int, n: nat)
    ensures UnsignedOf(LittleEndian(x, n)) == x % Pow256(n)
    decreases n
  {
    if n == 0 {
    } else {
      var P := Pow256(n - 1);
      var s := LittleEndian(x, n);
      assert s[1..] == LittleEndian(x / 0x100, n - 1);
      UnsignedOfLittleEndian(x / 0x100, n - 1);
      var q, r := x / 0x100, x % 0x100;
      var q2, r2 := q / P, q % P;
      assert x == 0x100 * (P * q2) + (0x100 * r2 + r);
      assert 0x100 * P * q2 == (0x100 * P) * q2;
      assert 0 <= 0x100 * r2 + r < 0x100 * P by {
        assert r2 <= P - 1;
        assert 0x100 * r2 <= 0x100 * (P - 1);
      }
      DivModUnique(x, 0x100 * P, q2, 0x100 * r2 + r);
    }
  }

  /** A fixed-width signed value written natively reads back as itself. */
  lemma {:induction false} FixedWidthRoundTrip(x: int, n: nat)
    requires n > 0 && 0 <= Pow256(n) + 2 * x && 2 * x < Pow256(n)
    ensures SignedOf(LittleEndian(x, n)) == x
  {
    UnsignedOfLittleEndian(x, n);
    var P := Pow256(n);
    if x >= 0 {
      DivModUnique(x, P, 0, x);
    } else {
      DivModUnique(x, P, -1, x + P);
    }
  }

  // ---------------------------------------------------------------------
  // Variable-length integers: writeVarInt / writeVarLong, readVarInt / readVarLong
  // ---------------------------------------------------------------------

  /** The bytes writeVarInt and writeVarLong emit for v: while v >= 0x80 the
      low seven bits with bit 7 set, then the final value cast to a byte.
      A negative v skips the loop and leaves only its low eight bits. */
  function VarBytes(v: int): seq<Byte>
    decreases if v < 0 then 0 else v
  {
    if v >= 0x80 then [v % 0x80 + 0x80] + VarBytes(v / 0x80) else [v % 0x100]
  }

  /** Unsigned LEB128 shape: every byte but the last carries the continuation
      bit, and for a non-negative value the last one does not. */
  lemma {:induction false} VarBytesShape(v: int)
    ensures |VarBytes(v)| >= 1
    ensures forall j :: 0 <= j < |VarBytes(v)| - 1 ==> VarBytes(v)[j] >= 0x80
    ensures v >= 0 ==> VarBytes(v)[|VarBytes(v)| - 1] < 0x80
  {
    if v >= 0x80 {
      VarBytesShape(v / 0x80);
      assert VarBytes(v) == [v % 0x80 + 0x80] + VarBytes(v / 0x80);
    }
  }

  /** The encoding of a non-negative v is the shortest that holds it:
      max(1, ceil(bitlength(v) / 7)) bytes. */
  lemma {:induction false} VarBytesLength(v: int)
    requires v >= 0
    ensures v < Pow128(|VarBytes(v)|)
    ensures |VarBytes(v)| == 1 || Pow128(|VarBytes(v)| - 1) <= v
  {
    if v >= 0x80 {
      VarBytesLength(v / 0x80);
      var k := |VarBytes(v / 0x80)|;
      assert |VarBytes(v)| == k + 1;
      assert v / 0x80 < Pow128(k);
      assert v < 0x80 * Pow128(k) by {
        assert v / 0x80 <= Pow128(k) - 1;
        assert 0x80 * (v / 0x80) <= 0x80 * (Pow128(k) - 1);
      }
      if k > 1 {
        assert Pow128(k - 1) <= v / 0x80;
        assert 0x80 * Pow128(k - 1) <= 0x80 * (v / 0x80);
      }
    }
  }

  /** The value read from the start of s by the 7-bit group loop, at most
      maxBytes bytes: the unsigned sum of the groups, and the number of bytes
      consumed. It stops after the first byte whose bit 7 is clear. A read at
      the end of input consumes nothing and is taken as a zero byte, which
      ends the loop. */
  function VarGroups(s: seq<Byte>, maxBytes: nat): (nat, nat)
    decreases maxBytes
  {
    if maxBytes == 0 || s == [] then (0, 0)
    else if s[0] < 0x80 then (s[0], 1)
    else
      var r := VarGroups(s[1..], maxBytes - 1);
      (s[0] - 0x80 + 0x80 * r.0, r.1 + 1)
  }

  /** readVarInt: at most five bytes, the sum truncated to a signed 32-bit int. */
  function DecodeVarInt(s: seq<Byte>): Decoded<Int32>
  {
    var r := VarGroups(s, 5);
    Decoded(ToInt32(r.0), r.1)
  }

  /** readVarLong: at most ten bytes, the sum truncated to a signed 64-bit int. */
  function DecodeVarLong(s: seq<Byte>): Decoded<Int64>
  {
    var r := VarGroups(s, 10);
    Decoded(ToInt64(r.0), r.1)
  }

  /** The group loop reads at most maxBytes bytes, every byte it consumes but
      the last has bit 7 set, and it stops early only on a byte with bit 7
      clear or at the end of input. Reaching the bound is not an error: the
      sum read so far is returned. */
  lemma {:induction false} VarGroupsStops(s: seq<Byte>, maxBytes: nat)
    ensures VarGroups(s, maxBytes).1 <= Min(maxBytes, |s|)
    ensures forall j :: 0 <= j < VarGroups(s, maxBytes).1 - 1 ==> s[j] >= 0x80
    ensures VarGroups(s, maxBytes).1 < Min(maxBytes, |s|) ==>
      0 < VarGroups(s, maxBytes).1 && s[VarGroups(s, maxBytes).1 - 1] < 0x80
    ensures VarGroups(s, maxBytes).1 == 0 <==> maxBytes == 0 || s == []
  {
    if maxBytes != 0 && s != [] && s[0] >= 0x80 {
      VarGroupsStops(s[1..], maxBytes - 1);
      var n := VarGroups(s, maxBytes).1;
      forall j | 0 <= j < n - 1 ensures s[j] >= 0x80 {
        if j > 0 { assert s[j] == s[1..][j - 1]; }
      }
    }
  }

  lemma {:induction false} VarGroupsOfVarBytes(v: int, rest: seq<Byte>, maxBytes: nat)
    requires v >= 0 && |VarBytes(v)| <= maxBytes
    ensures VarGroups(VarBytes(v) + rest, maxBytes) == (v, |VarBytes(v)|)
  {
    var s := VarBytes(v) + rest;
    if v >= 0x80 {
      assert s[1..] == VarBytes(v / 0x80) + rest;
      VarGroupsOfVarBytes(v / 0x80, rest, maxBytes - 1);
    } else {
      assert s[0] == v;
    }
  }

  /** A non-negative 32-bit value round-trips through writeVarInt/readVarInt,
      which consumes exactly the bytes written, whatever follows them. */
  lemma {:induction false} VarIntRoundTrip(v: int, rest: seq<Byte>)
    requires 0 <= v < 0x8000_0000
    ensures DecodeVarInt(VarBytes(v) + rest) == Decoded(v, |VarBytes(v)|)
  {
    VarBytesAtMost(v, 5);
    VarGroupsOfVarBytes(v, rest, 5);
    ToInt32InRange(v);
  }

  /** A non-negative 64-bit value round-trips through writeVarLong/readVarLong. */
  lemma {:induction false} VarLongRoundTrip(v: int, rest: seq<Byte>)
    requires 0 <= v < 0x8000_0000_0000_0000
    ensures DecodeVarLong(VarBytes(v) + rest) == Decoded(v, |VarBytes(v)|)
  {
    VarBytesAtMost(v, 10);
    VarGroupsOfVarBytes(v, rest, 10);
    ToInt64InRange(v);
  }

  /** A value below 128^k takes at most k bytes. */
  lemma {:induction false} VarBytesAtMost(v: int, k: nat)
    requires k >= 1 && 0 <= v < Pow128(k)
    ensures |VarBytes(v)| <= k
  {
    VarBytesLength(v);
    var n := |VarBytes(v)|;
    assert n >= 1;
    Pow128Monotone(k, n - 1);
  }

  lemma {:induction false} Pow128Monotone(a: nat, b: nat)
    ensures a <= b ==> Pow128(a) <= Pow128(b)
  {
    if a < b {
      Pow128Monotone(a, b - 1);
    }
  }

  /** A negative value does not survive writeVarInt/readVarInt: its single
      byte either reads back as a non-negative number or, with bit 7 set,
      makes the reader consume what follows it. */
  lemma {:induction false} NegativeVarIntLost(v: int, rest: seq<Byte>)
    requires -0x8000_0000 <= v < 0
    ensures VarBytes(v) == [v % 0x100]
    ensures DecodeVarInt(VarBytes(v) + rest) != Decoded(v, |VarBytes(v)|)
  {
    var s := VarBytes(v) + rest;
    if v % 0x100 < 0x80 {
      assert VarGroups(s, 5) == (v % 0x100, 1);
    } else if rest != [] {
      assert s[1..] == rest;
      assert VarGroups(s, 5).1 == VarGroups(rest, 4).1 + 1;
      VarGroupsStops(rest, 4);
    } else {
      assert s[1..] == [];
      assert VarGroups(s, 5) == (v % 0x100 - 0x80, 1);
    }
  }

  // ---------------------------------------------------------------------
  // Booleans: write(bool) / readBool
  // ---------------------------------------------------------------------

  function BoolByte(b: bool): Byte { if b then 1 else 0 }

  /** readBool: true exactly when a byte was read and it is not zero. */
  function DecodeBool(s: seq<Byte>): Decoded<bool>
  {
    if s != [] then Decoded(s[0] != 0, 1) else Decoded(false, 0)
  }

  lemma {:induction false} BoolRoundTrip(b: bool, rest: seq<Byte>)
    ensures DecodeBool([BoolByte(b)] + rest) == Decoded(b, 1)
  {
  }

  // ---------------------------------------------------------------------
  // Strings: write(juce::String) / readString
  // ---------------------------------------------------------------------

  predicate NoNul(s: seq<Byte>)
  {
    forall i :: 0 <= i < |s| ==> s[i] != 0
  }

  /** The C string a byte buffer holds: everything before its first NUL
      (what strlen measures and what std::string copies). */
  function CStr(s: seq<Byte>): seq<Byte>
  {
    if s == [] || s[0] == 0 then [] else [s[0]] + CStr(s[1..])
  }

  /** strlen stops at the first NUL: the C string is a NUL-free prefix that
      ends at the end of the buffer or just before a NUL. */
  lemma {:induction false} CStrShape(s: seq<Byte>)
    ensures |CStr(s)| <= |s| && CStr(s) == s[..|CStr(s)|]
    ensures NoNul(CStr(s))
    ensures |CStr(s)| < |s| ==> s[|CStr(s)|] == 0
  {
    if s != [] && s[0] != 0 {
      CStrShape(s[1..]);
      assert s == [s[0]] + s[1..];
    }
  }

  lemma {:induction false} CStrOfNoNul(s: seq<Byte>)
    requires NoNul(s)
    ensures CStr(s) == s
  {
    if s != [] {
      CStrOfNoNul(s[1..]);
    }
  }

  /** write(String): the byte length as a varint, then the raw bytes with no
      terminator; an empty string is the single byte 0. */
  function StringBytes(s: seq<Byte>): seq<Byte>
  {
    var c := CStr(s);
    if c == [] then VarBytes(0) else VarBytes(ToInt32(|c|)) + c
  }

  /** The one non-negative length readString cannot take: the allocation
      size `len + 1` overflows int. */
  const OverflowingLength := 0x7FFF_FFFF

  /** readString. A zero length gives "". A negative length, or the length
      whose `len + 1` overflows, is undefined behaviour in the source (a
      wrapped allocation size): None. Otherwise
      the bytes actually available, up to the length, are consumed, and the
      result is the C string they hold. */
  function DecodeString(s: seq<Byte>): Option<Decoded<seq<Byte>>>
  {
    var len := DecodeVarInt(s);
    DecodeVarIntSize(s);
    if len.value == 0 then Some(Decoded([], len.size))
    else if len.value < 0 || len.value == OverflowingLength then None
    else
      var got := s[len.size..Min(len.size + len.value, |s|)];
      Some(Decoded(CStr(got), len.size + |got|))
  }

  lemma {:induction false} DecodeVarIntSize(s: seq<Byte>)
    ensures DecodeVarInt(s).size <= |s|
  {
    VarGroupsStops(s, 5);
  }

  /** readString never consumes more than the bytes available. */
  lemma {:induction false} DecodeStringSize(s: seq<Byte>)
    ensures DecodeString(s).Some? ==> DecodeString(s).value.size <= |s|
  {
    DecodeVarIntSize(s);
  }

  lemma {:induction false} StringBytesOfNoNul(s: seq<Byte>)
    requires NoNul(s) && 0 < |s| < 0x8000_0000
    ensures StringBytes(s) == VarBytes(|s|) + s
  {
    CStrOfNoNul(s);
    ToInt32InRange(|s|);
  }

  /** A string without NUL bytes and shorter than 2^31 - 1 bytes round-trips,
      consuming exactly its encoding. */
  lemma {:induction false} StringRoundTrip(s: seq<Byte>, rest: seq<Byte>)
    requires NoNul(s) && |s| < OverflowingLength
    ensures DecodeString(StringBytes(s) + rest) == Some(Decoded(s, |StringBytes(s)|))
  {
    if s == [] {
      assert StringBytes(s) == VarBytes(0);
      VarIntRoundTrip(0, rest);
    } else {
      var n := StringParts(s, rest);
      StringAfterLength(StringBytes(s) + rest, |s|, n, s);
    }
  }

  /** The pieces of a non-empty string's encoding: its length prefix decodes
      to the length, and the bytes after it are the string. */
  lemma {:induction false} StringParts(s: seq<Byte>, rest: seq<Byte>) returns (n: nat)
    requires NoNul(s) && 0 < |s| < OverflowingLength
    ensures DecodeVarInt(StringBytes(s) + rest) == Decoded(|s|, n)
    ensures n + |s| <= |StringBytes(s) + rest| && |StringBytes(s)| == n + |s|
    ensures CStr((StringBytes(s) + rest)[n..n + |s|]) == s
  {
    var head := VarBytes(|s|);
    StringBytesOfNoNul(s);
    Concat3(head, s, rest);
    VarIntRoundTrip(|s|, s + rest);
    CStrOfNoNul(s);
    n := |head|;
  }

  lemma {:induction false} StringAfterLength(t: seq<Byte>, len: int, n: nat, s: seq<Byte>)
    ensures 0 < len < OverflowingLength && n + len <= |t| && DecodeVarInt(t) == Decoded(len, n)
            && CStr(t[n..n + len]) == s
            ==> DecodeString(t) == Some(Decoded(s, n + len))
  {
  }

  /** When the stream ends before the announced length, readString returns
      the bytes that were there (cut at a NUL) and consumes all of them. */
  lemma {:induction false} StringTruncated(s: seq<Byte>)
    requires DecodeVarInt(s).value > |s| - DecodeVarInt(s).size
    requires DecodeVarInt(s).value != OverflowingLength
    ensures DecodeString(s).Some?
    ensures DecodeString(s).value.size == |s|
    ensures DecodeString(s).value.value == CStr(s[DecodeVarInt(s).size..])
  {
    DecodeVarIntSize(s);
    var len := DecodeVarInt(s);
    assert Min(len.size + len.value, |s|) == |s|;
    assert s[len.size..|s|] == s[len.size..];
  }

  /** The length 2^31 - 1, varint FF FF FF FF 07, is read whole and then
      undefined, whatever follows it; so is any negative length. */
  lemma {:induction false} OverflowingLengthUndefined(rest: seq<Byte>)
    ensures DecodeVarInt([0xFF, 0xFF, 0xFF, 0xFF, 0x07] + rest) == Decoded(OverflowingLength, 5)
    ensures DecodeString([0xFF, 0xFF, 0xFF, 0xFF, 0x07] + rest) == None
  {
    VarBytesOfMax();
    VarIntRoundTrip(OverflowingLength, rest);
  }

  lemma {:induction false} VarBytesOfMax()
    ensures VarBytes(OverflowingLength) == [0xFF, 0xFF, 0xFF, 0xFF, 0x07]
  {
  }

  // ---------------------------------------------------------------------
  // String arrays: write(StringArray)
  // ---------------------------------------------------------------------

  function StringsBytes(ss: seq<seq<Byte>>): seq<Byte>
  {
    if ss == [] then [] else StringBytes(ss[0]) + StringsBytes(ss[1..])
  }

  /** write(StringArray): the element count as a varint, then each string. */
  function StringArrayBytes(ss: seq<seq<Byte>>): seq<Byte>
  {
    VarBytes(ToInt32(|ss|)) + StringsBytes(ss)
  }

  /** The strings of an array are encoded one after the other. */
  lemma {:induction false} StringsBytesAppend(a: seq<seq<Byte>>, b: seq<seq<Byte>>)
    ensures StringsBytes(a + b) == StringsBytes(a) + StringsBytes(b)
  {
    if a == [] {
      assert a + b == b;
    } else {
      assert (a + b)[1..] == a[1..] + b;
      StringsBytesAppend(a[1..], b);
    }
  }

  lemma {:induction false} StringsBytesSnoc(ss: seq<seq<Byte>>, i: nat)
    requires i < |ss|
    ensures StringsBytes(ss[..i + 1]) == StringsBytes(ss[..i]) + StringBytes(ss[i])
  {
    assert ss[..i + 1] == ss[..i] + [ss[i]];
    StringsBytesAppend(ss[..i], [ss[i]]);
    assert StringsBytes([ss[i]]) == StringBytes(ss[i]) + StringsBytes([]);
  }

  /** Reads count strings in order (how the parent reads a string array). */
  function DecodeStrings(s: seq<Byte>, count: nat): Option<Decoded<seq<seq<Byte>>>>
    decreases count
  {
    if count == 0 then Some(Decoded([], 0))
    else match DecodeString(s)
      case None => None
      case Some(first) =>
        if first.size > |s| then None
        else match DecodeStrings(s[first.size..], count - 1)
          case None => None
          case Some(others) => Some(Decoded([first.value] + others.value, first.size + others.size))
  }

  function DecodeStringArray(s: seq<Byte>): Option<Decoded<seq<seq<Byte>>>>
  {
    StringsAfterCount(s, DecodeVarInt(s))
  }

  /** The strings that follow an already decoded element count. */
  function StringsAfterCount(s: seq<Byte>, count: Decoded<Int32>): Option<Decoded<seq<seq<Byte>>>>
  {
    if count.value < 0 || count.size > |s| then None
    else match DecodeStrings(s[count.size..], count.value)
      case None => None
      case Some(items) => Some(Decoded(items.value, count.size + items.size))
  }

  predicate AllNoNul(ss: seq<seq<Byte>>)
  {
    ss == [] || (NoNul(ss[0]) && |ss[0]| < OverflowingLength && AllNoNul(ss[1..]))
  }

  lemma {:induction false} StringsRoundTrip(ss: seq<seq<Byte>>, rest: seq<Byte>)
    requires AllNoNul(ss)
    ensures DecodeStrings(StringsBytes(ss) + rest, |ss|) == Some(Decoded(ss, |StringsBytes(ss)|))
  {
    if ss != [] {
      StringsRoundTrip(ss[1..], rest);
      StringsCons(ss, rest);
    }
  }

  /** One step of the induction above: a first string that round-trips in
      front of a list that round-trips. */
  lemma {:induction false} StringsCons(ss: seq<seq<Byte>>, rest: seq<Byte>)
    requires ss != []
    ensures NoNul(ss[0]) && |ss[0]| < OverflowingLength
            && DecodeStrings(StringsBytes(ss[1..]) + rest, |ss[1..]|) == Some(Decoded(ss[1..], |StringsBytes(ss[1..])|))
            ==> DecodeStrings(StringsBytes(ss) + rest, |ss|) == Some(Decoded(ss, |StringsBytes(ss)|))
  {
    if NoNul(ss[0]) && |ss[0]| < OverflowingLength
       && DecodeStrings(StringsBytes(ss[1..]) + rest, |ss[1..]|) == Some(Decoded(ss[1..], |StringsBytes(ss[1..])|))
    {
      var n, m := FirstStringRoundTrip(ss, rest);
      HeadTail(ss);
      DecodeStringsStep(StringsBytes(ss) + rest, |ss|, ss[0], n, StringsBytes(ss[1..]) + rest, |ss[1..]|, ss[1..], m);
    }
  }

  lemma {:induction false} HeadTail<T>(s: seq<T>)
    requires s != []
    ensures [s[0]] + s[1..] == s && |s[1..]| + 1 == |s|
  {
  }

  lemma {:induction false} FirstStringRoundTrip(ss: seq<seq<Byte>>, rest: seq<Byte>) returns (n: nat, m: nat)
    requires ss != [] && NoNul(ss[0]) && |ss[0]| < OverflowingLength
    ensures DecodeString(StringsBytes(ss) + rest) == Some(Decoded(ss[0], n))
    ensures n <= |StringsBytes(ss) + rest|
    ensures (StringsBytes(ss) + rest)[n..] == StringsBytes(ss[1..]) + rest
    ensures m == |StringsBytes(ss[1..])| && |StringsBytes(ss)| == n + m
  {
    var head, tail := StringBytes(ss[0]), StringsBytes(ss[1..]);
    Concat3(head, tail, rest);
    StringRoundTrip(ss[0], tail + rest);
    n, m := |head|, |tail|;
  }

  /** Sequence facts used above, kept out of the contexts that unfold the
      encoders. */
  lemma {:induction false} Concat3(a: seq<Byte>, b: seq<Byte>, c: seq<Byte>)
    ensures a + b + c == a + (b + c)
    ensures (a + b + c)[|a|..] == b + c
    ensures (a + b + c)[|a|..|a| + |b|] == b
  {
  }

  lemma {:induction false} Concat6(a: seq<Byte>, b: seq<Byte>, c: seq<Byte>, d: seq<Byte>, e: seq<Byte>, f: seq<Byte>)
    ensures a + b + c + d + e + f == a + (b + (c + (d + (e + f))))
  {
  }

  lemma {:induction false} DecodeStringsStep(t: seq<Byte>, count: int, first: seq<Byte>, n: nat,
                                            tail: seq<Byte>, c: nat, others: seq<seq<Byte>>, m: nat)
    ensures count == c + 1 && DecodeString(t) == Some(Decoded(first, n)) && n <= |t| && t[n..] == tail
            && DecodeStrings(tail, c) == Some(Decoded(others, m))
            ==> DecodeStrings(t, count) == Some(Decoded([first] + others, n + m))
  {
  }

  /** A string array of NUL-free strings round-trips. */
  lemma {:induction false} StringArrayRoundTrip(ss: seq<seq<Byte>>, rest: seq<Byte>)
    requires AllNoNul(ss) && |ss| < 0x8000_0000
    ensures DecodeStringArray(StringArrayBytes(ss) + rest) == Some(Decoded(ss, |StringArrayBytes(ss)|))
  {
    var n, m := StringArrayCount(ss, rest);
    StringsRoundTrip(ss, rest);
    StringsAfterCountStep(StringArrayBytes(ss) + rest, |ss|, n, ss, m);
  }

  /** Below 2^31 strings the count prefix is the plain varint of the count:
      it decodes back to the count, and the strings follow it. */
  lemma {:induction false} StringArrayCount(ss: seq<seq<Byte>>, rest: seq<Byte>) returns (n: nat, m: nat)
    requires |ss| < 0x8000_0000
    ensures DecodeVarInt(StringArrayBytes(ss) + rest) == Decoded(|ss|, n)
    ensures n <= |StringArrayBytes(ss) + rest|
    ensures DecodeStrings((StringArrayBytes(ss) + rest)[n..], |ss|) == DecodeStrings(StringsBytes(ss) + rest, |ss|)
    ensures m == |StringsBytes(ss)| && |StringArrayBytes(ss)| == n + m
  {
    var head, body := VarBytes(|ss|), StringsBytes(ss);
    ToInt32InRange(|ss|);
    assert StringArrayBytes(ss) == head + body;
    Concat3(head, body, rest);
    VarIntRoundTrip(|ss|, body + rest);
    n, m := |head|, |body|;
  }

  lemma {:induction false} StringsAfterCountStep(t: seq<Byte>, count: Int32, n: nat, items: seq<seq<Byte>>, m: nat)
    ensures 0 <= count && n <= |t| && DecodeStrings(t[n..], count) == Some(Decoded(items, m))
            ==> StringsAfterCount(t, Decoded(count, n)) == Some(Decoded(items, n + m))
  {
  }

  // ---------------------------------------------------------------------
  // Fixed frames of output_stream: the byte-order word and the error frame
  // ---------------------------------------------------------------------

  const ErrorOpcode: Byte := 127

  /** writeByteOrderMessage: the 16-bit value 0x0102 in native order. */
  function ByteOrderMessage(): seq<Byte>
  {
    LittleEndian(0x0102, 2)
  }

  /** writeError: opcode 127, then the message as a string. */
  function ErrorFrame(msg: seq<Byte>): seq<Byte>
  {
    [ErrorOpcode] + StringBytes(msg)
  }

  /** How the parent reads an error frame. */
  function DecodeErrorFrame(s: seq<Byte>): Option<seq<Byte>>
  {
    if s == [] || s[0] != ErrorOpcode then None
    else match DecodeString(s[1..])
      case None => None
      case Some(msg) => Some(msg.value)
  }

  /** The byte-order word reads back as 0x0102 and starts with 0x02 on a
      little-endian machine, so the parent can tell the order from it. */
  lemma {:induction false} ByteOrderMessageValue()
    ensures ByteOrderMessage() == [0x02, 0x01]
    ensures SignedOf(ByteOrderMessage()) == 0x0102
  {
    FixedWidthRoundTrip(0x0102, 2);
  }

  lemma {:induction false} ErrorFrameRoundTrip(msg: seq<Byte>, rest: seq<Byte>)
    requires NoNul(msg) && |msg| < OverflowingLength
    ensures DecodeErrorFrame(ErrorFrame(msg) + rest) == Some(msg)
  {
    var t := ErrorFrame(msg) + rest;
    assert t[1..] == StringBytes(msg) + rest;
    StringRoundTrip(msg, rest);
  }
}
