/** The two stream objects of src/utils.h: output_stream appends to the
    child's stdout, input_stream consumes the child's stdin. Each write
    method is proved to append exactly the encoding Wire defines, and each
    read method to consume and return exactly what Wire's decoders say. */
module Streams {
  import opened Wire

  /** strlen: the length of the C string at the front of s. */
  method Strlen(s: seq<Byte>) returns (n: nat)
    ensures n <= |s| && NoNul(s[..n]) && (n < |s| ==> s[n] == 0)
    ensures s[..n] == CStr(s)
  {
    n := 0;
    while n < |s| && s[n] != 0
      invariant n <= |s| && NoNul(s[..n])
      invariant CStr(s) == s[..n] + CStr(s[n..])
    {
      CStrStep(s, n);
      n := n + 1;
    }
  }

  /** output_stream. `bytes` is everything written so far and `flushed` the
      length of the prefix that flush() has pushed to the parent. */
  class OutputStream {
    var bytes: seq<Byte>
    var flushed: nat

    ghost predicate Valid()
      reads this
    {
      flushed <= |bytes|
    }

    constructor ()
      ensures Valid() && bytes == [] && flushed == 0
    {
      bytes := [];
      flushed := 0;
    }

    /** fwrite of raw bytes: write<T>, writeArray, writeAction. */
    method Write(data: seq<Byte>)
      requires Valid()
      modifies this
      ensures Valid() && bytes == old(bytes) + data && flushed == old(flushed)
    {
      bytes := bytes + data;
    }

    /** write(bool): one byte, 0 or 1. */
    method WriteBool(v: bool)
      requires Valid()
      modifies this
      ensures Valid() && bytes == old(bytes) + [BoolByte(v)] && flushed == old(flushed)
    {
      Write([if v then 1 else 0]);
    }

    /** writeVarInt: the loop emits seven bits at a time while the value is
        at least 0x80, then the remaining value cast to a byte. */
    method WriteVarInt(v: Int32)
      requires Valid()
      modifies this
      ensures Valid() && bytes == old(bytes) + VarBytes(v) && flushed == old(flushed)
    {
      var x: int := v;
      while x >= 0x80
        invariant Valid() && flushed == old(flushed)
        invariant bytes + VarBytes(x) == old(bytes) + VarBytes(v)
        decreases x
      {
        assert VarBytes(x) == [x % 0x80 + 0x80] + VarBytes(x / 0x80);
        Write([x % 0x80 + 0x80]);
        x := x / 0x80;
      }
      Write([x % 0x100]);
    }

    /** writeVarLong: the same loop on a 64-bit value. */
    method WriteVarLong(v: Int64)
      requires Valid()
      modifies this
      ensures Valid() && bytes == old(bytes) + VarBytes(v) && flushed == old(flushed)
    {
      var x: int := v;
      while x >= 0x80
        invariant Valid() && flushed == old(flushed)
        invariant bytes + VarBytes(x) == old(bytes) + VarBytes(v)
        decreases x
      {
        assert VarBytes(x) == [x % 0x80 + 0x80] + VarBytes(x / 0x80);
        Write([x % 0x80 + 0x80]);
        x := x / 0x80;
      }
      Write([x % 0x100]);
    }

    /** write(String): an empty string is varint 0; otherwise the strlen of
        its UTF-8 bytes, cast to int, then those bytes. */
    method WriteString(s: seq<Byte>)
      requires Valid()
      modifies this
      ensures Valid() && bytes == old(bytes) + StringBytes(s) && flushed == old(flushed)
    {
      if s == [] || s[0] == 0 {
        assert CStr(s) == [];
        WriteVarInt(0);
        return;
      }
      var len := Strlen(s);
      StringBytesOfPrefix(s, len);
      WriteVarInt(ToInt32(len));
      Concat3(old(bytes), VarBytes(ToInt32(len)), s[..len]);
      Write(s[..len]);
    }

    /** write(StringArray): the element count as a varint, then each string. */
    method WriteStringArray(ss: seq<seq<Byte>>)
      requires Valid()
      modifies this
      ensures Valid() && bytes == old(bytes) + StringArrayBytes(ss) && flushed == old(flushed)
    {
      WriteVarInt(ToInt32(|ss|));
      ghost var prefix := bytes;
      var i := 0;
      while i < |ss|
        invariant 0 <= i <= |ss| && Valid() && flushed == old(flushed)
        invariant bytes == prefix + StringsBytes(ss[..i])
      {
        WriteString(ss[i]);
        StringsBytesSnoc(ss, i);
        Concat3(prefix, StringsBytes(ss[..i]), StringBytes(ss[i]));
        i := i + 1;
      }
      assert ss[..|ss|] == ss;
      Concat3(old(bytes), VarBytes(ToInt32(|ss|)), StringsBytes(ss));
    }

    method Flush()
      requires Valid()
      modifies this
      ensures Valid() && bytes == old(bytes) && flushed == |bytes|
    {
      flushed := |bytes|;
    }

    /** writeByteOrderMessage: the short 0x0102 in native order, flushed. */
    method WriteByteOrderMessage()
      requires Valid()
      modifies this
      ensures Valid() && bytes == old(bytes) + ByteOrderMessage() && flushed == |bytes|
    {
      Write(LittleEndian(0x0102, 2));
      Flush();
    }

    /** writeError: opcode 127 and the message, flushed. The copy sent to
        stderr is not part of the protocol. */
    method WriteError(msg: seq<Byte>)
      requires Valid()
      modifies this
      ensures Valid() && bytes == old(bytes) + ErrorFrame(msg) && flushed == |bytes|
    {
      Write([ErrorOpcode]);
      WriteString(msg);
      Concat3(old(bytes), [ErrorOpcode], StringBytes(msg));
      Flush();
    }
  }

  /** input_stream over the bytes the parent sends; `pos` counts the bytes
      consumed so far. */
  class InputStream {
    const data: seq<Byte>
    var pos: nat

    ghost predicate Valid()
      reads this
    {
      pos <= |data|
    }

    /** The bytes not read yet. */
    function Remaining(): seq<Byte>
      reads this
      requires Valid()
    {
      data[pos..]
    }

    constructor (data: seq<Byte>)
      ensures Valid() && this.data == data && pos == 0
    {
      this.data := data;
      pos := 0;
    }

    /** fread of up to n bytes: takes what is available, at most n. */
    method ReadUpTo(n: nat) returns (got: seq<Byte>)
      requires Valid()
      modifies this
      ensures Valid()
      ensures got == old(Remaining())[..Min(n, |old(Remaining())|)]
      ensures pos == old(pos) + |got|
    {
      var k := Min(n, |data| - pos);
      got := data[pos..pos + k];
      pos := pos + k;
    }

    /** fread into an object whose current bytes are dest (read<T>,
        readArray): the bytes available overwrite the front of dest and the
        rest keep their value; ok tells whether the whole object was read. */
    method ReadInto(dest: seq<Byte>) returns (ok: bool, r: seq<Byte>)
      requires Valid()
      modifies this
      ensures Valid()
      ensures ok == (|dest| <= |old(Remaining())|)
      ensures r == old(Remaining())[..Min(|dest|, |old(Remaining())|)] + dest[Min(|dest|, |old(Remaining())|)..]
      ensures |r| == |dest| && pos == old(pos) + Min(|dest|, |old(Remaining())|)
    {
      var got := ReadUpTo(|dest|);
      ok := |got| == |dest|;
      r := got + dest[|got|..];
    }

    /** A one-byte read; at the end of input it fails and consumes nothing. */
    method ReadByte() returns (ok: bool, b: Byte)
      requires Valid()
      modifies this
      ensures Valid()
      ensures ok == (old(pos) < |data|)
      ensures ok ==> b == data[old(pos)] && pos == old(pos) + 1
      ensures !ok ==> b == 0 && pos == old(pos)
    {
      if pos < |data| {
        ok, b := true, data[pos];
        pos := pos + 1;
      } else {
        ok, b := false, 0;
      }
    }

    /** readBool. */
    method ReadBool() returns (v: bool)
      requires Valid()
      modifies this
      ensures Valid()
      ensures v == DecodeBool(old(Remaining())).value
      ensures pos == old(pos) + DecodeBool(old(Remaining())).size
    {
      var ok, b := ReadByte();
      v := ok && b != 0;
    }

    /** The 7-bit group loop shared by readVarInt (five bytes) and
        readVarLong (ten bytes). A failed read leaves the byte variable
        uninitialised in the source; here it reads as 0, which ends the loop.
        The groups occupy disjoint bits, so OR-ing the shifted groups is
        adding them. */
    method ReadGroups(maxBytes: nat) returns (sum: int)
      requires Valid()
      modifies this
      ensures Valid()
      ensures sum == VarGroups(old(Remaining()), maxBytes).0
      ensures pos == old(pos) + VarGroups(old(Remaining()), maxBytes).1
    {
      ghost var total := GroupsAcc(data[pos..], maxBytes, 0, 1);
      GroupsAccSum(data[pos..], maxBytes, 0, 1);
      ghost var p0 := pos;
      sum := 0;
      var k := 0;
      while k < maxBytes
        invariant 0 <= k <= maxBytes && pos <= |data| && pos == p0 + k
        invariant total == Shift(GroupsAcc(data[pos..], maxBytes - k, sum, Pow128(k)), k)
      {
        ghost var rem := data[pos..];
        var ok, b := ReadByte();
        GroupStep(rem, maxBytes - k, sum, Pow128(k), ok, b);
        sum := sum + b % 0x80 * Pow128(k);
        if b < 0x80 {
          return;
        }
        assert rem[1..] == data[pos..];
        k := k + 1;
      }
    }

    /** readVarInt: at most five bytes, truncated to 32 bits. */
    method ReadVarInt() returns (v: Int32)
      requires Valid()
      modifies this
      ensures Valid()
      ensures v == DecodeVarInt(old(Remaining())).value
      ensures pos == old(pos) + DecodeVarInt(old(Remaining())).size
    {
      var sum := ReadGroups(5);
      v := ToInt32(sum);
    }

    /** readVarLong: at most ten bytes, truncated to 64 bits. */
    method ReadVarLong() returns (v: Int64)
      requires Valid()
      modifies this
      ensures Valid()
      ensures v == DecodeVarLong(old(Remaining())).value
      ensures pos == old(pos) + DecodeVarLong(old(Remaining())).size
    {
      var sum := ReadGroups(10);
      v := ToInt64(sum);
    }

    /** readString. A negative length, or one whose `len + 1` overflows,
        would size the allocation with a wrapped value, which is undefined
        behaviour: the result is then None. */
    method ReadString() returns (r: Option<seq<Byte>>)
      requires Valid()
      modifies this
      ensures Valid()
      ensures r.None? <==> DecodeString(old(Remaining())).None?
      ensures r.Some? ==> r.value == DecodeString(old(Remaining())).value.value
                          && pos == old(pos) + DecodeString(old(Remaining())).value.size
      ensures old(pos) <= pos
    {
      ghost var start := Remaining();
      DecodeVarIntSize(start);
      var len := ReadVarInt();
      if len == 0 {
        return Some([]);
      }
      if len < 0 || len == OverflowingLength {
        return None;
      }
      ghost var n := DecodeVarInt(start).size;
      ghost var rem := Remaining();
      SliceOfRest(data, old(pos), n, len);
      var got := ReadUpTo(len);
      var k := Strlen(got);
      DecodeStringOf(start, len, n, got, got[..k]);
      r := Some(got[..k]);
    }
  }

  /** A positive length, and the bytes that were there after it. */
  lemma {:induction false} DecodeStringOf(s: seq<Byte>, len: Int32, n: nat, got: seq<Byte>, c: seq<Byte>)
    ensures DecodeVarInt(s) == Decoded(len, n) && n <= |s| && 0 < len && len != OverflowingLength
            && got == s[n..Min(n + len, |s|)] && c == CStr(got)
            ==> DecodeString(s) == Some(Decoded(c, n + |got|))
  {
  }

  /** What is left after n more bytes are consumed at p. */
  lemma {:induction false} DropOfRest(data: seq<Byte>, p: int, n: int)
    requires 0 <= p <= |data| && 0 <= n <= |data| - p
    ensures data[p + n..] == data[p..][n..]
  {
  }

  /** What a read of up to len bytes takes after the first n bytes of the
      input at p. */
  lemma {:induction false} SliceOfRest(data: seq<Byte>, p: int, n: int, len: int)
    ensures 0 <= p <= |data| && 0 <= n <= |data| - p && 0 <= len ==>
      data[p + n..] == data[p..][n..]
      && data[p + n..][..Min(len, |data| - (p + n))] == data[p..][n..Min(n + len, |data| - p)]
  {
  }

  /** The group loop with its running sum and the weight of the next group
      made explicit. */
  ghost function GroupsAcc(s: seq<Byte>, m: nat, sum: int, p: int): (int, nat)
    decreases m
  {
    if m == 0 || s == [] then (sum, 0)
    else if s[0] < 0x80 then (sum + s[0] * p, 1)
    else
      var r := GroupsAcc(s[1..], m - 1, sum + (s[0] - 0x80) * p, 0x80 * p);
      (r.0, r.1 + 1)
  }

  function Shift(r: (int, nat), k: nat): (int, nat) { (r.0, r.1 + k) }

  /** The accumulated loop computes the groups' value. */
  lemma {:induction false} GroupsAccSum(s: seq<Byte>, m: nat, sum: int, p: int)
    ensures GroupsAcc(s, m, sum, p) == (sum + p * VarGroups(s, m).0, VarGroups(s, m).1)
    decreases m
  {
    if m != 0 && s != [] && s[0] >= 0x80 {
      GroupsAccSum(s[1..], m - 1, sum + (s[0] - 0x80) * p, 0x80 * p);
      GroupArith(sum, p, s[0] - 0x80, VarGroups(s[1..], m - 1).0);
    }
  }

  /** One turn of the group loop: the byte just read (0 at the end of input)
      is the next seven bits of the sum, and either ends the groups or
      leaves the rest to the following bytes. */
  lemma {:induction false} GroupStep(rem: seq<Byte>, m: int, sum: int, p: int, ok: bool, b: Byte)
    ensures m > 0 && ok == (rem != []) && (if ok then b == rem[0] else b == 0) ==>
      if b < 0x80 then GroupsAcc(rem, m, sum, p) == (sum + b % 0x80 * p, if ok then 1 else 0)
      else rem != [] && GroupsAcc(rem, m, sum, p) == Shift(GroupsAcc(rem[1..], m - 1, sum + b % 0x80 * p, 0x80 * p), 1)
  {
    if b >= 0x80 {
      DivModUnique(b, 0x80, 1, b - 0x80);
    } else {
      DivModUnique(b, 0x80, 0, b);
    }
  }

  lemma {:induction false} GroupArith(sum: int, p: int, g: int, x: int)
    ensures sum + p * (g + 0x80 * x) == sum + g * p + (0x80 * p) * x
  {
  }

  /** strlen advances over a non-NUL byte. */
  lemma {:induction false} CStrStep(s: seq<Byte>, n: nat)
    requires n < |s| && s[n] != 0
    ensures s[..n] + CStr(s[n..]) == s[..n + 1] + CStr(s[n + 1..])
  {
    assert s[n..][1..] == s[n + 1..];
    assert CStr(s[n..]) == [s[n]] + CStr(s[n + 1..]);
    assert s[..n + 1] == s[..n] + [s[n]];
  }

  /** The encoding of a string whose C string is its first len bytes. */
  lemma {:induction false} StringBytesOfPrefix(s: seq<Byte>, len: nat)
    requires len <= |s| && s[..len] == CStr(s) && s != [] && s[0] != 0
    ensures StringBytes(s) == VarBytes(ToInt32(len)) + s[..len]
  {
  }
}
