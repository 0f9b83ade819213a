/** The integers and strings of the 15440-p1 messages, as the memory of a
    little-endian machine with 32-bit int and 64-bit size_t. */
module Wire {
  import opened Bytes

  function Pow256(n: nat): (p: nat)
    ensures p > 0
  {
    if n == 0 then 1 else 256 * Pow256(n - 1)
  }

  /** The n bytes of v, least significant first; higher digits are cut off. */
  function LittleEndian(v: nat, n: nat): (s: Content)
    ensures |s| == n
  {
    if n == 0 then [] else [(v % 256) as byte] + LittleEndian(v / 256, n - 1)
  }

  function Value(s: Content): nat {
    if s == [] then 0 else s[0] as nat + 256 * Value(s[1..])
  }

  lemma {:induction false} ValueOfLittleEndian(v: nat, n: nat)
    requires v < Pow256(n)
    ensures Value(LittleEndian(v, n)) == v
  {
    if n > 0 {
      ValueOfLittleEndian(v / 256, n - 1);
      assert LittleEndian(v, n)[1..] == LittleEndian(v / 256, n - 1);
    }
  }

  lemma {:induction false} ValueBound(s: Content)
    ensures Value(s) < Pow256(|s|)
  {
    if s != [] {
      ValueBound(s[1..]);
    }
  }

  const INT := 4
  const SIZE_T := 8

  predicate IsInt(v: int) {
    -0x8000_0000 <= v < 0x8000_0000
  }

  predicate IsUnsigned(v: int) {
    0 <= v < 0x1_0000_0000
  }

  predicate IsSize(v: int) {
    0 <= v < 0x1_0000_0000_0000_0000
  }

  /** The memory of an int, in two's complement. */
  function PutInt(v: int): (s: Content)
    ensures |s| == INT
  {
    LittleEndian(v % 0x1_0000_0000, INT)
  }

  function GetInt(s: Content): int {
    Int32(Value(s))
  }

  function PutSize(v: nat): (s: Content)
    ensures |s| == SIZE_T
  {
    LittleEndian(v, SIZE_T)
  }

  lemma Powers()
    ensures Pow256(INT) == 0x1_0000_0000 && Pow256(SIZE_T) == 0x1_0000_0000_0000_0000
  {
    assert Pow256(2) == 0x1_0000;
    assert Pow256(4) == 0x1_0000_0000;
    assert Pow256(6) == 0x1_0000_0000_0000;
  }

  lemma IntRoundTrip(v: int)
    ensures IsInt(v) ==> GetInt(PutInt(v)) == v
    ensures IsUnsigned(v) ==> Value(PutInt(v)) == v
  {
    Powers();
    ValueOfLittleEndian(v % 0x1_0000_0000, INT);
  }

  lemma SizeRoundTrip(v: nat)
    requires IsSize(v)
    ensures Value(PutSize(v)) == v
  {
    Powers();
    ValueOfLittleEndian(v, SIZE_T);
  }

  // ---- C strings

  predicate NulFree(s: Content) {
    0 !in s
  }

  /** strlen: the bytes before the first NUL, if there is one. */
  function CString(s: Content): Content {
    if s == [] || s[0] == 0 then [] else [s[0]] + CString(s[1..])
  }

  lemma {:induction false} CStringStops(name: Content, rest: Content)
    requires NulFree(name)
    ensures CString(name + [0] + rest) == name
  {
    if name == [] {
      assert (name + [0] + rest)[0] == 0;
    } else {
      assert (name + [0] + rest)[1..] == name[1..] + [0] + rest;
      CStringStops(name[1..], rest);
    }
  }

  lemma {:induction false} CStringIsNulFree(s: Content)
    ensures NulFree(CString(s)) && |CString(s)| <= |s|
    ensures 0 in s ==> |CString(s)| < |s|
  {
    if s != [] && s[0] != 0 {
      CStringIsNulFree(s[1..]);
    }
  }

  /** n bytes at an offset; used only where they are there. */
  function Slice(s: Content, offset: nat, n: nat): (r: Content)
    requires offset + n <= |s|
    ensures |r| == n
  {
    s[offset..offset + n]
  }

  /** `part` stands at an offset of s. */
  predicate Stands(s: Content, offset: nat, part: Content) {
    offset + |part| <= |s| && s[offset..offset + |part|] == part
  }

  lemma StandsSplit(s: Content, offset: nat, a: Content, b: Content)
    requires Stands(s, offset, a + b)
    ensures Stands(s, offset, a) && Stands(s, offset + |a|, b)
  {
    assert s[offset..offset + |a|] == (a + b)[..|a|];
    assert s[offset + |a|..offset + |a + b|] == (a + b)[|a|..];
  }

  // ---- memory

  /** malloc, realloc and memcpy: a buffer with its size. */
  class Buffer {
    var info: array<byte>
    var size: nat

    ghost predicate Valid()
      reads this
    {
      info.Length == size
    }

    constructor (n: nat)
      ensures Valid() && fresh(info) && size == n
    {
      info, size := new byte[n], n;
    }

    /** realloc to hold n more bytes. */
    method Grow(n: nat)
      requires Valid()
      modifies this
      ensures Valid() && fresh(info) && size == old(size) + n
      ensures info[..old(size)] == old(info[..])
    {
      var larger := new byte[size + n];
      var i := 0;
      while i < size
        invariant Valid() && info == old(info) && size == old(size)
        invariant i <= size && larger[..i] == info[..i]
      {
        larger[i] := info[i];
        i := i + 1;
      }
      assert info[..i] == info[..];
      info, size := larger, size + n;
    }

    /** memcpy into the buffer. */
    method CopyIn(offset: nat, part: Content)
      requires Valid() && offset + |part| <= size
      modifies info
      ensures info[..] == old(info[..offset]) + part + old(info[offset + |part|..])
    {
      var i := 0;
      while i < |part|
        invariant i <= |part|
        invariant info[..] == old(info[..offset]) + part[..i] + old(info[offset + i..])
      {
        info[offset + i] := part[i];
        i := i + 1;
      }
      assert part[..i] == part;
    }
  }
}
