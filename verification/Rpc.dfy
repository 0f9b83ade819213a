/** The requests of 15440-p1 as mylib.c packs them and server.c takes them
    apart. */
module Rpc {
  import opened Options
  import opened Bytes
  import opened Wire

  /** What a client asks for; `statbuf` is the raw memory of a struct stat. */
  datatype Request =
    | Open(path: Content, flags: int, mode: int)
    | Close(fd: int)
    | Read(fd: int, count: nat)
    | Write(fd: int, data: Content)
    | Stat(path: Content, statbuf: Content)
    | Unlink(path: Content)
    | GetDirTree(path: Content)
    | Unsupported(opcode: int)

  const OPEN := 0
  const CLOSE := 1
  const READ := 2
  const WRITE := 3
  const LSEEK := 4
  const STAT := 5
  const UNLINK := 6
  const GETDIRENTRIES := 7
  const GETDIRTREE := 8

  const HEADER := 16
  const STAT_SIZE := 144

  // Client descriptors start here.
  const OFFSET := 10000

  function Opcode(r: Request): int {
    match r
    case Open(_, _, _) => OPEN
    case Close(_) => CLOSE
    case Read(_, _) => READ
    case Write(_, _) => WRITE
    case Stat(_, _) => STAT
    case Unlink(_) => UNLINK
    case GetDirTree(_) => GETDIRTREE
    case Unsupported(op) => op
  }

  /** Bytes of a struct that the compiler leaves between its fields. */
  datatype Padding = Padding(header: Content, body: Content)

  predicate FourBytes(pad: Padding) {
    |pad.header| == 4 && |pad.body| == 4
  }

  function PutPath(path: Content): Content {
    path + [0]
  }

  /** rpc_header: opcode, four bytes of padding, size. */
  function Header(opcode: int, size: nat, pad: Content): Content {
    PutInt(opcode) + pad + PutSize(size)
  }

  function Body(r: Request, pad: Content): Content {
    match r
    case Open(path, flags, mode) => PutInt(|path| + 1) + (PutInt(flags) + (PutInt(mode) + PutPath(path)))
    case Close(fd) => PutInt(fd)
    case Read(fd, count) => PutInt(fd) + (pad + PutSize(count))
    case Write(fd, data) => PutInt(fd) + (PutSize(|data|) + data)
    case Stat(path, statbuf) => PutInt(|path| + 1) + (PutPath(path) + statbuf)
    case Unlink(path) => PutInt(|path| + 1) + PutPath(path)
    case GetDirTree(path) => PutInt(|path| + 1) + PutPath(path)
    case Unsupported(_) => []
  }

  function Pack(r: Request, pad: Padding): Content {
    Header(Opcode(r), |Body(r, pad.body)|, pad.header) + Body(r, pad.body)
  }

  /** Paths are C strings, and every number has the width of its C type; the
      length of the whole message is an int. */
  predicate Sendable(r: Request) {
    match r
    case Open(path, flags, mode) => IsPath(path, 12) && IsInt(flags) && IsUnsigned(mode)
    case Close(fd) => IsInt(fd)
    case Read(fd, count) => IsInt(fd) && IsSize(count)
    case Write(fd, data) => IsInt(fd) && IsInt(HEADER + INT + SIZE_T + |data|)
    case Stat(path, statbuf) => IsPath(path, INT + STAT_SIZE) && |statbuf| == STAT_SIZE
    case Unlink(path) => IsPath(path, INT)
    case GetDirTree(path) => IsPath(path, INT)
    case Unsupported(_) => false
  }

  /** A path that fits into a message beside `fixed` other bytes. */
  predicate IsPath(path: Content, fixed: nat) {
    NulFree(path) && IsInt(HEADER + fixed + |path| + 1)
  }

  // ---- the server's side

  /** A string of n bytes at an offset, as far as the handler uses it. */
  function GetPath(body: Content, offset: nat, n: int): Option<Content> {
    if n < 0 || offset + n > |body| then None
    else if 0 !in Slice(body, offset, n) then None
    else Some(CString(Slice(body, offset, n)))
  }

  /** The request a handler sees. None where it would use bytes that were not
      sent, and for the two opcodes that are not modelled. */
  function Parse(opcode: int, body: Content): Option<Request> {
    if opcode == OPEN then
      if |body| < 12 then None
      else
        match GetPath(body, 12, GetInt(Slice(body, 0, INT)))
        case None => None
        case Some(path) => Some(Open(path, GetInt(Slice(body, 4, INT)), Value(Slice(body, 8, INT))))
    else if opcode == CLOSE then
      if |body| < 4 then None else Some(Close(GetInt(Slice(body, 0, INT))))
    else if opcode == READ then
      if |body| < 16 then None else Some(Read(GetInt(Slice(body, 0, INT)), Value(Slice(body, 8, SIZE_T))))
    else if opcode == WRITE then
      if |body| < 12 then None
      else
        var count := Value(Slice(body, 4, SIZE_T));
        if 12 + count > |body| then None
        else Some(Write(GetInt(Slice(body, 0, INT)), Slice(body, 12, count)))
    else if opcode == STAT then
      if |body| < 4 then None
      else
        var n := GetInt(Slice(body, 0, INT));
        match GetPath(body, 4, n)
        case None => None
        case Some(path) =>
          if 4 + n + STAT_SIZE > |body| then None else Some(Stat(path, Slice(body, 4 + n, STAT_SIZE)))
    else if opcode == UNLINK then
      if |body| < 4 then None
      else
        match GetPath(body, 4, GetInt(Slice(body, 0, INT)))
        case None => None
        case Some(path) => Some(Unlink(path))
    else if opcode == GETDIRTREE then
      if |body| < 4 then None
      else
        match GetPath(body, 4, GetInt(Slice(body, 0, INT)))
        case None => None
        case Some(path) => Some(GetDirTree(path))
    else if opcode == LSEEK || opcode == GETDIRENTRIES then None
    else Some(Unsupported(opcode))
  }

  // ---- a request comes out as it went in

  lemma PathStands(body: Content, offset: nat, path: Content)
    requires NulFree(path) && Stands(body, offset, PutPath(path))
    ensures GetPath(body, offset, |path| + 1) == Some(path)
  {
    CStringStops(path, []);
    assert path + [0] + [] == path + [0];
    assert Slice(body, offset, |path| + 1) == path + [0];
    assert (path + [0])[|path|] == 0;
  }

  lemma PathBody(path: Content, tail: Content)
    requires IsPath(path, INT)
    ensures var body := PutInt(|path| + 1) + (PutPath(path) + tail);
      && GetInt(Slice(body, 0, INT)) == |path| + 1 && GetPath(body, 4, |path| + 1) == Some(path)
      && Stands(body, 4 + |path| + 1, tail)
  {
    hide LittleEndian;
    hide GetInt;
    hide GetPath;
    var a, b := PutInt(|path| + 1), PutPath(path);
    var body := a + (b + tail);
    assert Stands(body, 0, body);
    StandsSplit(body, 0, a, b + tail);
    StandsSplit(body, 4, b, tail);
    PathStands(body, 4, path);
    IntRoundTrip(|path| + 1);
  }

  lemma OpenBody(r: Request, pad: Content)
    requires r.Open? && Sendable(r)
    ensures Parse(OPEN, Body(r, pad)) == Some(r)
  {
    hide LittleEndian;
    hide GetInt;
    hide GetPath;
    hide Value;
    var a, b, c, d := PutInt(|r.path| + 1), PutInt(r.flags), PutInt(r.mode), PutPath(r.path);
    var body := a + (b + (c + d));
    assert Stands(body, 0, body);
    StandsSplit(body, 0, a, b + (c + d));
    StandsSplit(body, 4, b, c + d);
    StandsSplit(body, 8, c, d);
    PathStands(body, 12, r.path);
    IntRoundTrip(|r.path| + 1);
    IntRoundTrip(r.flags);
    IntRoundTrip(r.mode);
  }

  lemma ReadBody(r: Request, pad: Content)
    requires r.Read? && Sendable(r) && |pad| == 4
    ensures Parse(READ, Body(r, pad)) == Some(r)
  {
    hide LittleEndian;
    hide GetInt;
    hide Value;
    var a, b := PutInt(r.fd), PutSize(r.count);
    var body := a + (pad + b);
    assert Stands(body, 0, body);
    StandsSplit(body, 0, a, pad + b);
    StandsSplit(body, 4, pad, b);
    IntRoundTrip(r.fd);
    SizeRoundTrip(r.count);
  }

  lemma WriteBody(r: Request, pad: Content)
    requires r.Write? && Sendable(r)
    ensures Parse(WRITE, Body(r, pad)) == Some(r)
  {
    hide LittleEndian;
    hide GetInt;
    hide Value;
    var a, b := PutInt(r.fd), PutSize(|r.data|);
    var body := a + (b + r.data);
    assert Stands(body, 0, body);
    StandsSplit(body, 0, a, b + r.data);
    StandsSplit(body, 4, b, r.data);
    IntRoundTrip(r.fd);
    SizeRoundTrip(|r.data|);
  }

  lemma PathRequestBody(r: Request, pad: Content)
    requires (r.Stat? || r.Unlink? || r.GetDirTree?) && Sendable(r)
    ensures Parse(Opcode(r), Body(r, pad)) == Some(r)
  {
    hide LittleEndian;
    hide GetInt;
    hide GetPath;
    var tail := if r.Stat? then r.statbuf else [];
    PathBody(r.path, tail);
    assert Body(r, pad) == PutInt(|r.path| + 1) + (PutPath(r.path) + tail) by {
      assert PutPath(r.path) + [] == PutPath(r.path);
    }
  }

  /** The handler of a request sees what the client asked for, whatever the
      padding holds. */
  lemma BodyRoundTrip(r: Request, pad: Content)
    requires Sendable(r) && |pad| == 4
    ensures Parse(Opcode(r), Body(r, pad)) == Some(r)
  {
    match r
    case Open(_, _, _) => OpenBody(r, pad);
    case Close(fd) =>
      IntRoundTrip(fd);
      assert Slice(PutInt(fd), 0, INT) == PutInt(fd);
    case Read(_, _) => ReadBody(r, pad);
    case Write(_, _) => WriteBody(r, pad);
    case _ => PathRequestBody(r, pad);
  }

  // ---- packing in place

  /** malloc for a whole message, with its header. */
  method NewMessage(opcode: int, size: nat, pad: Content) returns (msg: Buffer)
    requires |pad| == 4
    ensures msg.Valid() && fresh(msg) && fresh(msg.info) && msg.size == HEADER + size
    ensures msg.info[..HEADER] == Header(opcode, size, pad)
  {
    msg := new Buffer(HEADER + size);
    msg.CopyIn(0, Header(opcode, size, pad));
  }

  method PackOpen(pathname: Content, flags: int, mode: int, pad: Padding) returns (msg: Buffer)
    requires FourBytes(pad)
    ensures fresh(msg) && fresh(msg.info) && msg.info[..] == Pack(Open(pathname, flags, mode), pad)
  {
    hide LittleEndian;
    msg := NewMessage(OPEN, 12 + |pathname| + 1, pad.header);
    msg.CopyIn(HEADER, PutInt(|pathname| + 1) + PutInt(flags) + PutInt(mode));
    msg.CopyIn(HEADER + 12, pathname + [0]);
    assert Body(Open(pathname, flags, mode), pad.body) ==
      PutInt(|pathname| + 1) + PutInt(flags) + PutInt(mode) + (pathname + [0]);
  }

  method PackClose(fd: int, pad: Padding) returns (msg: Buffer)
    requires FourBytes(pad) && fd >= OFFSET
    ensures fresh(msg) && fresh(msg.info) && msg.info[..] == Pack(Close(fd - OFFSET), pad)
  {
    hide LittleEndian;
    msg := NewMessage(CLOSE, INT, pad.header);
    msg.CopyIn(HEADER, PutInt(fd - OFFSET));
  }

  method PackRead(fd: int, count: nat, pad: Padding) returns (msg: Buffer)
    requires FourBytes(pad) && fd >= OFFSET
    ensures fresh(msg) && fresh(msg.info) && msg.info[..] == Pack(Read(fd - OFFSET, count), pad)
  {
    hide LittleEndian;
    msg := NewMessage(READ, 16, pad.header);
    msg.CopyIn(HEADER, PutInt(fd - OFFSET) + (pad.body + PutSize(count)));
  }

  method PackWrite(fd: int, buf: Content, pad: Padding) returns (msg: Buffer)
    requires FourBytes(pad) && fd >= OFFSET
    ensures fresh(msg) && fresh(msg.info) && msg.info[..] == Pack(Write(fd - OFFSET, buf), pad)
  {
    hide LittleEndian;
    hide Header;
    msg := NewMessage(WRITE, INT + SIZE_T + |buf|, pad.header);
    ghost var head := msg.info[..HEADER];
    var offset := HEADER;
    msg.CopyIn(offset, PutInt(fd - OFFSET));
    offset := offset + INT;
    assert msg.info[..offset] == head + PutInt(fd - OFFSET);
    msg.CopyIn(offset, PutSize(|buf|));
    offset := offset + SIZE_T;
    assert msg.info[..offset] == head + PutInt(fd - OFFSET) + PutSize(|buf|);
    msg.CopyIn(offset, buf);
    assert msg.info[..] == head + PutInt(fd - OFFSET) + PutSize(|buf|) + buf;
    assert Body(Write(fd - OFFSET, buf), pad.body) == PutInt(fd - OFFSET) + PutSize(|buf|) + buf;
  }

  method PackStat(pathname: Content, statbuf: Content, pad: Padding) returns (msg: Buffer)
    requires FourBytes(pad) && |statbuf| == STAT_SIZE
    ensures fresh(msg) && fresh(msg.info) && msg.info[..] == Pack(Stat(pathname, statbuf), pad)
  {
    hide LittleEndian;
    hide Header;
    var pathLength := |pathname| + 1;
    msg := NewMessage(STAT, INT + STAT_SIZE + pathLength, pad.header);
    ghost var head := msg.info[..HEADER];
    var offset := HEADER;
    msg.CopyIn(offset, PutInt(pathLength));
    offset := offset + INT;
    assert msg.info[..offset] == head + PutInt(pathLength);
    msg.CopyIn(offset, pathname + [0]);
    offset := offset + pathLength;
    assert msg.info[..offset] == head + PutInt(pathLength) + (pathname + [0]);
    msg.CopyIn(offset, statbuf);
    assert msg.info[..] == head + PutInt(pathLength) + (pathname + [0]) + statbuf;
    assert Body(Stat(pathname, statbuf), pad.body) == PutInt(pathLength) + (pathname + [0]) + statbuf;
  }

  /** UNLINK and GETDIRTREE carry a path only. */
  method PackPath(r: Request, pad: Padding) returns (msg: Buffer)
    requires FourBytes(pad) && (r.Unlink? || r.GetDirTree?)
    ensures fresh(msg) && fresh(msg.info) && msg.info[..] == Pack(r, pad)
  {
    hide LittleEndian;
    var pathLength := |r.path| + 1;
    msg := NewMessage(Opcode(r), INT + pathLength, pad.header);
    msg.CopyIn(HEADER, PutInt(pathLength));
    msg.CopyIn(HEADER + INT, r.path + [0]);
  }
}
