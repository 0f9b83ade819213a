/** Bytes, and what writing at a position does to a file. */
module Bytes {

  newtype byte = x: int | 0 <= x < 256

  type Content = seq<byte>

  // Proxy.java:38 and Server.java:25: files travel in chunks of this size.
  const CHUNK_SIZE := 50000

  function Zeros(n: nat): (z: Content)
    ensures |z| == n
  {
    seq(n, _ => 0)
  }

  /** RandomAccessFile.seek(pos) followed by write(buf): a gap is filled with
      zeros, an empty buffer leaves the file alone. */
  function WriteAt(file: Content, pos: nat, buf: Content): (r: Content)
    ensures buf == [] ==> r == file
    ensures buf != [] ==> |r| == if |file| < pos + |buf| then pos + |buf| else |file|
    ensures |r| >= |file|
  {
    if buf == [] then file
    else
      var padded := if |file| < pos then file + Zeros(pos - |file|) else file;
      padded[..pos] + buf + (if pos + |buf| < |file| then file[pos + |buf|..] else [])
  }

  /** `data` written over the front of `file`. */
  function Overlay(file: Content, data: Content): Content {
    data + (if |data| < |file| then file[|data|..] else [])
  }

  function ChunkAt(data: Content, pos: nat): (c: Content)
    requires pos < |data|
    ensures 0 < |c| <= CHUNK_SIZE && pos + |c| <= |data| && c == data[pos..pos + |c|]
  {
    if |data| - pos > CHUNK_SIZE then data[pos..pos + CHUNK_SIZE] else data[pos..]
  }

  /** The number of chunks needed for n bytes. */
  function Chunks(n: nat): nat {
    (n + CHUNK_SIZE - 1) / CHUNK_SIZE
  }

  // The least number of pieces of 50000 bytes that hold n.
  lemma ChunksCover(n: nat)
    ensures n <= 50000 * Chunks(n) < n + 50000
  {
  }

  // Extending an overlay by the next chunk is one write at its end.
  lemma WriteExtendsOverlay(file: Content, data: Content, pos: nat, next: nat)
    requires pos < next <= |data|
    ensures WriteAt(Overlay(file, data[..pos]), pos, data[pos..next]) == Overlay(file, data[..next])
  {
    assert data[..pos] + data[pos..next] == data[..next];
  }

  // Clearing a range before writing it (Server.java:91-98, Proxy.java:467-475)
  // leaves the same file as writing it once.
  lemma ClearThenWrite(file: Content, pos: nat, buf: Content)
    ensures WriteAt(WriteAt(file, pos, Zeros(|buf|)), pos, buf) == WriteAt(file, pos, buf)
  {
  }

  // Clearing a range at the front of a file.
  lemma ZerosWritten(was: Content, chunk: Content)
    requires chunk != []
    ensures WriteAt(was, 0, Zeros(|chunk|)) == Overlay(was, Zeros(|chunk|))
  {
  }

  /** Java's narrowing of a long to an int, and the wrap-around of int sums. */
  type int32 = x: int | -0x8000_0000 <= x < 0x8000_0000

  function Int32(x: int): (r: int32)
    ensures -0x8000_0000 <= x < 0x8000_0000 ==> r == x
  {
    (x + 0x8000_0000) % 0x1_0000_0000 - 0x8000_0000
  }

  lemma Int32Sum(a: int, b: int)
    ensures Int32(Int32(a) + b) == Int32(a + b)
  {
    var q := (a + 0x8000_0000) / 0x1_0000_0000;
    assert Int32(a) == a - q * 0x1_0000_0000;
    ModShift(a + b + 0x8000_0000, -q);
  }

  lemma ModShift(x: int, k: int)
    ensures (x + k * 0x1_0000_0000) % 0x1_0000_0000 == x % 0x1_0000_0000
  {
    var q, r := x / 0x1_0000_0000, x % 0x1_0000_0000;
    var y := x + k * 0x1_0000_0000;
    assert y == (q + k) * 0x1_0000_0000 + r;
    var q', r' := y / 0x1_0000_0000, y % 0x1_0000_0000;
    assert (q + k - q') * 0x1_0000_0000 == r' - r;
  }
}
