/** Requests and trees over a byte stream that arrives in fragments. */
module Streams {
  import opened Options
  import opened Bytes
  import opened Wire
  import opened Rpc
  import DirTree

  const MAXMSGLEN := 10000

  function Min(a: nat, b: nat): nat {
    if a <= b then a else b
  }

  // ---- what a stream says

  /** The size a header announces. */
  function SizeOf(s: Content): nat
    requires |s| >= HEADER
  {
    Value(Slice(s, 8, SIZE_T))
  }

  /** The bytes behind a header and its body, or what there is of it. */
  function Behind(s: Content): (rest: Content)
    requires |s| >= HEADER
    ensures |rest| < |s|
  {
    s[HEADER + Min(SizeOf(s), |s| - HEADER)..]
  }

  /** The request at the front of a stream; None when its body is cut off. */
  function First(s: Content): Option<Request>
    requires |s| >= HEADER
  {
    if HEADER + SizeOf(s) > |s| then None
    else Parse(GetInt(Slice(s, 0, INT)), Slice(s, HEADER, SizeOf(s)))
  }

  /** The requests of a whole stream. */
  function Served(s: Content): seq<Option<Request>>
    decreases |s|
  {
    if |s| < HEADER then [] else [First(s)] + Served(Behind(s))
  }

  /** No header is cut off, and every size is an int. */
  predicate Framed(s: Content)
    decreases |s|
  {
    s == [] || (|s| >= HEADER && IsInt(SizeOf(s)) && Framed(Behind(s)))
  }

  function PackAll(rs: seq<Request>, pads: seq<Padding>): Content
    requires |rs| == |pads|
  {
    if rs == [] then [] else Pack(rs[0], pads[0]) + PackAll(rs[1..], pads[1..])
  }

  lemma HeaderStands(s: Content, opcode: int, size: nat, pad: Content)
    requires Stands(s, 0, Header(opcode, size, pad)) && |pad| == 4 && IsInt(opcode) && IsSize(size)
    ensures GetInt(Slice(s, 0, INT)) == opcode && SizeOf(s) == size
  {
    hide LittleEndian;
    hide GetInt;
    hide Value;
    var a, b := PutInt(opcode), PutSize(size);
    assert Header(opcode, size, pad) == a + (pad + b);
    StandsSplit(s, 0, a, pad + b);
    StandsSplit(s, 4, pad, b);
    IntRoundTrip(opcode);
    SizeRoundTrip(size);
  }

  lemma BodySize(r: Request, pad: Content)
    requires Sendable(r) && |pad| == 4
    ensures IsInt(|Body(r, pad)|) && IsInt(Opcode(r))
  {
    hide LittleEndian;
  }

  // A header followed by its body and more.
  lemma FrontParts(opcode: int, body: Content, pad: Content, rest: Content)
    requires |pad| == 4 && IsInt(opcode) && IsInt(|body|)
    ensures var s := Header(opcode, |body|, pad) + body + rest;
      && |s| >= HEADER && SizeOf(s) == |body| && Behind(s) == rest
      && First(s) == Parse(opcode, body)
  {
    var head := Header(opcode, |body|, pad);
    var s := head + body + rest;
    assert |head| == HEADER;
    hide Header;
    hide Parse;
    hide GetInt;
    assert Stands(s, 0, head);
    HeaderStands(s, opcode, |body|, pad);
    hide SizeOf;
    assert Slice(s, HEADER, |body|) == body;
    assert s[HEADER + |body|..] == rest;
  }

  lemma FrontOfStream(r: Request, pad: Padding, rest: Content)
    requires Sendable(r) && FourBytes(pad)
    ensures var s := Pack(r, pad) + rest;
      |s| >= HEADER && First(s) == Some(r) && Behind(s) == rest && IsInt(SizeOf(s))
  {
    BodySize(r, pad.body);
    BodyRoundTrip(r, pad.body);
    FrontParts(Opcode(r), Body(r, pad.body), pad.header, rest);
    hide Body;
    hide Opcode;
    hide Parse;
    hide Header;
    hide First;
    hide Behind;
    hide SizeOf;
  }

  /** A stream of packed requests says exactly these requests, whatever the
      padding bytes are, and then what comes behind them. */
  lemma {:induction false} RequestsComeFirst(rs: seq<Request>, pads: seq<Padding>, tail: Content)
    requires |rs| == |pads| && (forall r :: r in rs ==> Sendable(r)) && (forall pad :: pad in pads ==> FourBytes(pad))
    ensures Framed(PackAll(rs, pads) + tail) <==> Framed(tail)
    ensures Served(PackAll(rs, pads) + tail) == Handled(rs) + Served(tail)
  {
    hide Sendable;
    hide Pack;
    hide First;
    hide Behind;
    hide SizeOf;
    if rs == [] {
      assert PackAll(rs, pads) + tail == tail;
      assert Handled(rs) + Served(tail) == Served(tail);
    } else {
      var rest := PackAll(rs[1..], pads[1..]);
      assert PackAll(rs, pads) + tail == Pack(rs[0], pads[0]) + (rest + tail);
      FrontOfStream(rs[0], pads[0], rest + tail);
      RequestsComeFirst(rs[1..], pads[1..], tail);
      assert Handled(rs) + Served(tail) == [Some(rs[0])] + (Handled(rs[1..]) + Served(tail));
    }
  }

  function Handled(rs: seq<Request>): seq<Option<Request>> {
    seq(|rs|, i requires 0 <= i < |rs| => Some(rs[i]))
  }

  /** A whole stream of packed requests is served as these requests. */
  lemma StreamRoundTrip(rs: seq<Request>, pads: seq<Padding>)
    requires |rs| == |pads| && (forall r :: r in rs ==> Sendable(r)) && (forall pad :: pad in pads ==> FourBytes(pad))
    ensures Framed(PackAll(rs, pads))
    ensures Served(PackAll(rs, pads)) == seq(|rs|, i requires 0 <= i < |rs| => Some(rs[i]))
  {
    RequestsComeFirst(rs, pads, []);
    assert PackAll(rs, pads) + [] == PackAll(rs, pads);
  }

  /** If the stream ends within the body of a further request, the ones before it
      are served, and that one has bytes that were never sent. */
  lemma CutOffStream(rs: seq<Request>, pads: seq<Padding>, r: Request, pad: Padding, n: nat)
    requires |rs| == |pads| && (forall x :: x in rs ==> Sendable(x)) && (forall x :: x in pads ==> FourBytes(x))
    requires Sendable(r) && FourBytes(pad) && HEADER <= n < |Pack(r, pad)|
    ensures Served(PackAll(rs, pads) + Pack(r, pad)[..n]) == Handled(rs) + [None]
  {
    var tail := Pack(r, pad)[..n];
    RequestsComeFirst(rs, pads, tail);
    BodySize(r, pad.body);
    hide Sendable;
    hide Body;
    hide Opcode;
    hide LittleEndian;
    assert |Header(Opcode(r), |Body(r, pad.body)|, pad.header)| == HEADER;
    hide Header;
    assert Stands(tail, 0, Header(Opcode(r), |Body(r, pad.body)|, pad.header));
    HeaderStands(tail, Opcode(r), |Body(r, pad.body)|, pad.header);
    hide SizeOf;
    assert First(tail) == None && Behind(tail) == [];
    assert Served([]) == [];
  }

  // ---- sockets

  lemma SameParts(a: Content, x: Content, b: Content, y: Content)
    requires a + x == b + y && |a| == |b|
    ensures a == b && x == y
  {
    assert a == (a + x)[..|a|] && x == (a + x)[|a|..];
    assert b == (b + y)[..|b|] && y == (b + y)[|b|..];
  }

  class Socket {
    var pending: Content

    constructor (pending: Content)
      ensures this.pending == pending
    {
      this.pending := pending;
    }

    /** recv: some of the bytes asked for, none only at the end. */
    method Recv(max: nat) returns (part: Content)
      requires max > 0
      modifies this
      ensures old(pending) == part + pending
      ensures |part| <= max && (part == [] <==> old(pending) == [])
    {
      if pending == [] {
        part := [];
      } else {
        var n :| 0 < n <= max && n <= |pending|;
        part, pending := pending[..n], pending[n..];
      }
    }

    /** recv of a header or a number, which arrives whole. */
    method RecvWhole(n: nat) returns (part: Content)
      requires n <= |pending|
      modifies this
      ensures |part| == n && old(pending) == part + pending
    {
      part, pending := pending[..n], pending[n..];
    }

    /** The loop that puts a body together; it gives up at the end of the
        stream. */
    method ReceiveBody(size: nat) returns (buf: Buffer, got: nat)
      modifies this
      ensures buf.Valid() && fresh(buf) && fresh(buf.info) && buf.size == size
      ensures got == Min(size, |old(pending)|)
      ensures buf.info[..got] == old(pending)[..got] && pending == old(pending)[got..]
    {
      buf := new Buffer(size);
      got := 0;
      while got < size
        invariant got <= size && got <= |old(pending)|
        invariant buf.Valid() && fresh(buf) && fresh(buf.info) && buf.size == size
        invariant buf.info[..got] == old(pending)[..got] && pending == old(pending)[got..]
        decreases size - got
      {
        var toRead := if size - got > MAXMSGLEN then MAXMSGLEN else size - got;
        var part := Recv(toRead);
        if part == [] { break; }
        buf.CopyIn(got, part);
        got := got + |part|;
      }
    }

    /** handle_client: the requests it handles, in order. */
    method HandleClient() returns (handled: seq<Option<Request>>)
      requires Framed(pending)
      modifies this
      ensures handled == Served(old(pending)) && pending == []
    {
      handled := [];
      hide First;
      while pending != []
        invariant Framed(pending)
        invariant Served(old(pending)) == handled + Served(pending)
        decreases |pending|
      {
        ghost var s := pending;
        var r := HandleRequest();
        assert handled + ([r] + Served(pending)) == handled + [r] + Served(pending);
        handled := handled + [r];
      }
    }

    /** One turn of the loop. */
    method HandleRequest() returns (r: Option<Request>)
      requires |pending| >= HEADER
      modifies this
      ensures r == First(old(pending)) && pending == Behind(old(pending))
    {
      hide GetInt;
      hide Value;
      hide Parse;
      var head := RecvWhole(HEADER);
      var size := Value(Slice(head, 8, SIZE_T));
      assert Slice(head, 8, SIZE_T) == Slice(old(pending), 8, SIZE_T);
      assert Slice(head, 0, INT) == Slice(old(pending), 0, INT);
      var buf, got := ReceiveBody(size);
      if got < size {
        r := None;
      } else {
        assert buf.info[..] == buf.info[..got];
        assert buf.info[..] == Slice(old(pending), HEADER, size);
        r := Parse(GetInt(Slice(head, 0, INT)), buf.info[..]);
      }
    }

    /** The client's side of GETDIRTREE. */
    method ReceiveTree(ghost err: int, ghost t: DirTree.Tree, ghost rest: Content) returns (errno: int, root: DirTree.Node)
      requires pending == TreeReply(err, t) + rest
      requires IsInt(err) && IsInt(|DirTree.Encode(t)|) && DirTree.Fits(t)
      modifies this
      ensures errno == err && root.Holds(t) && fresh(root.repr) && pending == rest
    {
      hide GetInt;
      hide LittleEndian;
      hide DirTree.Decode;
      hide DirTree.Fits;
      ghost var body := DirTree.Encode(t);
      var number := RecvWhole(INT);
      assert TreeReply(err, t) + rest == PutInt(err) + (PutInt(|body|) + (body + rest));
      SameParts(number, pending, PutInt(err), PutInt(|body|) + (body + rest));
      errno := GetInt(number);
      IntRoundTrip(err);
      number := RecvWhole(INT);
      SameParts(number, pending, PutInt(|body|), body + rest);
      var treeLength := GetInt(number);
      IntRoundTrip(|body|);
      var buf, got := ReceiveBody(treeLength);
      assert buf.info[..] == buf.info[..got] == body;
      assert pending == rest;
      var cursor := new DirTree.Cursor(0);
      assert [] + body + [] == body;
      DirTree.RoundTrip([], t, []);
      ghost var parsed;
      root, parsed := DirTree.DeserializeTree(buf.info[..], cursor);
    }
  }

  /** The answer to GETDIRTREE. */
  function TreeReply(errno: int, t: DirTree.Tree): Content {
    PutInt(errno) + PutInt(|DirTree.Encode(t)|) + DirTree.Encode(t)
  }

  /** The server's side of GETDIRTREE. */
  method ReplyWithTree(root: DirTree.Node, ghost t: DirTree.Tree, errno: int) returns (msg: Buffer)
    requires root.Holds(t)
    ensures fresh(msg) && fresh(msg.info) && msg.info[..] == TreeReply(errno, t)
  {
    hide LittleEndian;
    var b := new Buffer(0);
    DirTree.SerializeDirtree(root, b, t);
    msg := new Buffer(2 * INT + b.size);
    msg.CopyIn(0, PutInt(errno));
    msg.CopyIn(INT, PutInt(b.size));
    msg.CopyIn(2 * INT, b.info[..]);
  }
}
