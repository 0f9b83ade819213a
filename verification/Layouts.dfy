/** The messages byte by byte, at the offsets and with the numbers that the two
    programs use. */
module Layouts {
  import opened Options
  import opened Bytes
  import opened Wire
  import opened Rpc
  import DirTree
  import Streams

  // ---- numbers

  /** Digit i of a little-endian number. */
  lemma {:induction false} DigitAt(v: nat, n: nat, i: nat)
    requires i < n
    ensures LittleEndian(v, n)[i] as int == (v / Pow256(i)) % 256
  {
    if i > 0 {
      DigitAt(v / 256, n - 1, i - 1);
      DivTwice(v, Pow256(i - 1));
    }
  }

  lemma DivTwice(v: nat, p: nat)
    requires p > 0
    ensures v / 256 / p == v / (256 * p)
  {
    var x, a := v / 256, v % 256;
    var y, b := x / p, x % p;
    assert 256 * (p * y) == (256 * p) * y;
    assert v == 256 * x + a && x == p * y + b;
    DivIs(v, 256 * p, y, 256 * b + a);
  }

  // The quotient and the remainder are the only ones.
  lemma DivIs(n: nat, d: nat, q: int, r: int)
    requires n == d * q + r && 0 <= r < d
    ensures n / d == q
  {
    var k := q - n / d;
    assert d * k == d * q - d * (n / d);
    assert d * k == n % d - r;
    if k >= 1 { Multiple(d, k - 1); }
    if k <= -1 { Multiple(d, -k - 1); }
  }

  lemma Multiple(d: nat, k: nat)
    ensures d * (k + 1) >= d
  {
  }

  /** Some numbers in memory, and the ones both programs have. */
  lemma SomeNumbers()
    ensures OFFSET == 10000 && Streams.MAXMSGLEN == 10000 && STAT_SIZE == 144
    ensures PutInt(0x0403_0201) == [1, 2, 3, 4] && PutInt(-2) == [254, 255, 255, 255]
    ensures PutSize(0x0102) == [2, 1, 0, 0, 0, 0, 0, 0]
  {
    FourDigits(1, 2, 3, 4);
    FourDigits(254, 255, 255, 255);
    assert -2 % 0x1_0000_0000 == 0xFFFF_FFFE;
    hide PutInt;
    SixZeros();
    assert LittleEndian(0x0102, 8) == [2] + LittleEndian(1, 7);
    assert LittleEndian(1, 7) == [1] + LittleEndian(0, 6);
    hide LittleEndian;
  }

  lemma FourDigits(a: nat, b: nat, c: nat, d: nat)
    requires a < 256 && b < 256 && c < 256 && d < 256
    ensures LittleEndian(a + 256 * (b + 256 * (c + 256 * d)), 4) == [a as byte, b as byte, c as byte, d as byte]
  {
    var three, two := b + 256 * (c + 256 * d), c + 256 * d;
    assert LittleEndian(d, 1) == [d as byte] + LittleEndian(d / 256, 0);
    OneDigit(c, d, 2);
    OneDigit(b, two, 3);
    OneDigit(a, three, 4);
  }

  lemma OneDigit(a: nat, rest: nat, n: nat)
    requires a < 256 && n > 0
    ensures LittleEndian(a + 256 * rest, n) == [a as byte] + LittleEndian(rest, n - 1)
  {
    assert (a + 256 * rest) % 256 == a && (a + 256 * rest) / 256 == rest;
  }

  lemma SixZeros()
    ensures LittleEndian(0, 6) == [0, 0, 0, 0, 0, 0]
  {
    FourDigits(0, 0, 0, 0);
    assert LittleEndian(0, 5) == [0] + LittleEndian(0, 4);
    assert LittleEndian(0, 6) == [0] + LittleEndian(0, 5);
  }

  // ---- requests

  /** The sixteen bytes before every body. */
  predicate HasHeader(s: Content, opcode: int, size: nat, pad: Content) {
    |s| == 16 + size && Stands(s, 0, PutInt(opcode)) && Stands(s, 4, pad) && Stands(s, 8, PutSize(size))
  }

  lemma HeaderLayout(r: Request, pad: Padding)
    requires FourBytes(pad)
    ensures HasHeader(Pack(r, pad), Opcode(r), |Body(r, pad.body)|, pad.header)
    ensures Stands(Pack(r, pad), 16, Body(r, pad.body))
  {
    hide LittleEndian;
    var body := Body(r, pad.body);
    var a, b := PutInt(Opcode(r)), PutSize(|body|);
    hide Body;
    hide Opcode;
    assert Pack(r, pad) == a + (pad.header + (b + body));
    var s := Pack(r, pad);
    assert Stands(s, 0, s);
    StandsSplit(s, 0, a, pad.header + (b + body));
    StandsSplit(s, 4, pad.header, b + body);
    StandsSplit(s, 8, b, body);
  }

  lemma OpenLayout(path: Content, flags: int, mode: int, pad: Padding)
    requires FourBytes(pad)
    ensures var s := Pack(Open(path, flags, mode), pad);
      && HasHeader(s, 0, 12 + |path| + 1, pad.header)
      && Stands(s, 16, PutInt(|path| + 1)) && Stands(s, 20, PutInt(flags)) && Stands(s, 24, PutInt(mode))
      && Stands(s, 28, path + [0])
  {
    hide LittleEndian;
    HeaderLayout(Open(path, flags, mode), pad);
    var s := Pack(Open(path, flags, mode), pad);
    StandsSplit(s, 16, PutInt(|path| + 1), PutInt(flags) + (PutInt(mode) + PutPath(path)));
    StandsSplit(s, 20, PutInt(flags), PutInt(mode) + PutPath(path));
    StandsSplit(s, 24, PutInt(mode), PutPath(path));
    hide Pack;
  }

  lemma CloseLayout(fd: int, pad: Padding)
    requires FourBytes(pad)
    ensures var s := Pack(Close(fd), pad); HasHeader(s, 1, 4, pad.header) && Stands(s, 16, PutInt(fd))
  {
    hide LittleEndian;
    HeaderLayout(Close(fd), pad);
  }

  lemma ReadLayout(fd: int, count: nat, pad: Padding)
    requires FourBytes(pad)
    ensures var s := Pack(Read(fd, count), pad);
      && HasHeader(s, 2, 16, pad.header)
      && Stands(s, 16, PutInt(fd)) && Stands(s, 20, pad.body) && Stands(s, 24, PutSize(count))
  {
    hide LittleEndian;
    HeaderLayout(Read(fd, count), pad);
    var s := Pack(Read(fd, count), pad);
    StandsSplit(s, 16, PutInt(fd), pad.body + PutSize(count));
    StandsSplit(s, 20, pad.body, PutSize(count));
    hide Pack;
  }

  lemma WriteLayout(fd: int, data: Content, pad: Padding)
    requires FourBytes(pad)
    ensures var s := Pack(Write(fd, data), pad);
      && HasHeader(s, 3, 12 + |data|, pad.header)
      && Stands(s, 16, PutInt(fd)) && Stands(s, 20, PutSize(|data|)) && Stands(s, 28, data)
  {
    hide LittleEndian;
    HeaderLayout(Write(fd, data), pad);
    var s := Pack(Write(fd, data), pad);
    StandsSplit(s, 16, PutInt(fd), PutSize(|data|) + data);
    StandsSplit(s, 20, PutSize(|data|), data);
    hide Pack;
  }

  lemma StatLayout(path: Content, statbuf: Content, pad: Padding)
    requires FourBytes(pad) && |statbuf| == 144
    ensures var s := Pack(Stat(path, statbuf), pad);
      && HasHeader(s, 5, 4 + |path| + 1 + 144, pad.header)
      && Stands(s, 16, PutInt(|path| + 1)) && Stands(s, 20, path + [0]) && Stands(s, 20 + |path| + 1, statbuf)
  {
    hide LittleEndian;
    HeaderLayout(Stat(path, statbuf), pad);
    var s := Pack(Stat(path, statbuf), pad);
    StandsSplit(s, 16, PutInt(|path| + 1), PutPath(path) + statbuf);
    StandsSplit(s, 20, PutPath(path), statbuf);
    hide Pack;
  }

  lemma PathLayout(path: Content, pad: Padding)
    requires FourBytes(pad)
    ensures var s := Pack(Unlink(path), pad);
      HasHeader(s, 6, 4 + |path| + 1, pad.header) && Stands(s, 16, PutInt(|path| + 1)) && Stands(s, 20, path + [0])
    ensures var s := Pack(GetDirTree(path), pad);
      HasHeader(s, 8, 4 + |path| + 1, pad.header) && Stands(s, 16, PutInt(|path| + 1)) && Stands(s, 20, path + [0])
  {
    hide LittleEndian;
    HeaderLayout(Unlink(path), pad);
    HeaderLayout(GetDirTree(path), pad);
    StandsSplit(Pack(Unlink(path), pad), 16, PutInt(|path| + 1), PutPath(path));
    StandsSplit(Pack(GetDirTree(path), pad), 16, PutInt(|path| + 1), PutPath(path));
    hide Pack;
  }

  lemma SameFront(body: Content, k: nat, n: nat)
    requires n <= k <= |body|
    ensures Slice(body[..k], 0, n) == Slice(body, 0, n)
  {
  }

  /** No handler takes a part of a body for the whole. */
  lemma PartOfABody(r: Request, pad: Content, k: nat)
    requires Sendable(r) && |pad| == 4 && k < |Body(r, pad)|
    ensures Parse(Opcode(r), Body(r, pad)[..k]) == None
  {
    hide LittleEndian;
    hide GetInt;
    hide Value;
    var body := Body(r, pad);
    if k >= 4 && !r.Close? && !r.Read? {
      SameFront(body, k, 4);
      var first := if r.Write? then r.fd else |r.path| + 1;
      assert Slice(body, 0, INT) == PutInt(first);
      IntRoundTrip(first);
      if r.Write? && k >= 12 {
        SizeRoundTrip(|r.data|);
        assert Slice(body[..k], 4, SIZE_T) == PutSize(|r.data|);
      }
    }
  }

  /** A path without an end among its bytes is not read, and behind its end nothing
      of it is. */
  lemma PathsEnd(block: Content)
    requires IsInt(|block|)
    ensures forall opcode :: opcode == UNLINK || opcode == GETDIRTREE ==>
      Parse(opcode, PutInt(|block|) + block) ==
        if 0 !in block then None else Some(if opcode == UNLINK then Unlink(CString(block)) else GetDirTree(CString(block)))
  {
    hide LittleEndian;
    hide GetInt;
    hide CString;
    var body := PutInt(|block|) + block;
    assert Slice(body, 0, INT) == PutInt(|block|) && Slice(body, 4, |block|) == block;
    IntRoundTrip(|block|);
  }

  /** An opcode that no request has is answered as such, whatever its body. */
  lemma UnknownOpcode(opcode: int, body: Content)
    requires opcode < 0 || opcode > 8
    ensures Parse(opcode, body) == Some(Unsupported(opcode))
  {
  }

  // ---- trees

  /** A node at its offsets, and its subdirectories right behind it in order. */
  lemma NodeLayout(t: DirTree.Tree)
    ensures var s := DirTree.Encode(t); var n := |t.name|;
      && Stands(s, 0, PutInt(n + 1)) && Stands(s, 4, t.name) && Stands(s, 4 + n, [0])
      && Stands(s, 5 + n, PutInt(|t.subdirs|)) && Stands(s, 9 + n, DirTree.EncodeAll(t.subdirs))
      && |s| == 9 + n + |DirTree.EncodeAll(t.subdirs)|
  {
    hide LittleEndian;
    var a, count, rest := PutInt(|t.name| + 1), PutInt(|t.subdirs|), DirTree.EncodeAll(t.subdirs);
    hide DirTree.EncodeAll;
    var s := DirTree.Encode(t);
    assert s == a + (t.name + ([0] + (count + rest)));
    assert Stands(s, 0, s);
    StandsSplit(s, 0, a, t.name + ([0] + (count + rest)));
    StandsSplit(s, 4, t.name, [0] + (count + rest));
    StandsSplit(s, 4 + |t.name|, [0], count + rest);
    StandsSplit(s, 5 + |t.name|, count, rest);
  }

  /** The answer to GETDIRTREE at its offsets. */
  lemma ReplyLayout(errno: int, t: DirTree.Tree)
    ensures var s := Streams.TreeReply(errno, t);
      && Stands(s, 0, PutInt(errno)) && Stands(s, 4, PutInt(|DirTree.Encode(t)|)) && Stands(s, 8, DirTree.Encode(t))
      && |s| == 8 + |DirTree.Encode(t)|
  {
    hide LittleEndian;
    var a, b, tree := PutInt(errno), PutInt(|DirTree.Encode(t)|), DirTree.Encode(t);
    hide DirTree.Encode;
    var s := Streams.TreeReply(errno, t);
    assert s == a + (b + tree) && Stands(s, 0, s);
    StandsSplit(s, 0, a, b + tree);
    StandsSplit(s, 4, b, tree);
  }
}
