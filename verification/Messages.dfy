/** The messages of the collage commit, and counting them in flight. */
module Messages {
  import Bytes

  /** Names of nodes, collages and images. */
  datatype Name = Name(text: string)

  type Image = Bytes.Content

  const SERVER := Name("Server")

  /** One entry of `sources`, already split at its colon. */
  datatype Source = Source(node: Name, img: Name)

  datatype Kind = PREPARE | REPLY | DECISION | ACK

  datatype Message = Message(filename: Name, img: Image, sources: seq<Source>, kind: Kind, vote: bool)

  /** A message in flight with the address it came from. */
  datatype Packet = Packet(from: Name, to: Name, msg: Message)

  function NodesOf(sources: seq<Source>): set<Name> {
    set s | s in sources :: s.node
  }

  /** The images of one node among the sources. */
  function ImagesOf(sources: seq<Source>, node: Name): set<Name> {
    set s | s in sources && s.node == node :: s.img
  }

  /** The same message to every node of a set. */
  function Broadcast(nodes: set<Name>, m: Message): multiset<Packet> {
    multiset(set n | n in nodes :: Packet(SERVER, n, m))
  }

  /** What to count. Replies are told apart by their vote only: a reply that was
      sent again no longer shows which node it came from. */
  datatype Probe =
    | Prepares(filename: Name, node: Name)
    | Replies(filename: Name, vote: bool)
    | Decisions(filename: Name, node: Name)
    | AllOf(kind: Kind)

  predicate Matches(probe: Probe, p: Packet) {
    match probe
    case Prepares(f, n) => p.msg.kind == PREPARE && p.msg.filename == f && p.to == n
    case Replies(f, v) => p.msg.kind == REPLY && p.msg.filename == f && p.msg.vote == v
    case Decisions(f, n) => p.msg.kind == DECISION && p.msg.filename == f && p.to == n
    case AllOf(k) => p.msg.kind == k
  }

  function One(b: bool): nat {
    if b then 1 else 0
  }

  ghost function Tally(net: multiset<Packet>, probe: Probe): nat
    decreases |net|
  {
    if net == multiset{} then 0
    else
      var p :| p in net;
      One(Matches(probe, p)) + Tally(net - multiset{p}, probe)
  }

  lemma {:induction false} TallyRemove(net: multiset<Packet>, probe: Probe, p: Packet)
    requires p in net
    ensures Tally(net, probe) == One(Matches(probe, p)) + Tally(net - multiset{p}, probe)
    decreases |net|
  {
    hide Matches;
    var q := TallyPicks(net, probe);
    hide Tally;
    if q != p {
      TallyRemove(net - multiset{q}, probe, p);
      TallyRemove(net - multiset{p}, probe, q);
      assert net - multiset{q} - multiset{p} == net - multiset{p} - multiset{q};
    }
  }

  lemma TallyPicks(net: multiset<Packet>, probe: Probe) returns (q: Packet)
    requires net != multiset{}
    ensures q in net && Tally(net, probe) == One(Matches(probe, q)) + Tally(net - multiset{q}, probe)
  {
    q :| q in net && Tally(net, probe) == One(Matches(probe, q)) + Tally(net - multiset{q}, probe);
  }

  lemma TallyAdd(net: multiset<Packet>, probe: Probe, p: Packet)
    ensures Tally(net + multiset{p}, probe) == Tally(net, probe) + One(Matches(probe, p))
  {
    TallyRemove(net + multiset{p}, probe, p);
    assert net + multiset{p} - multiset{p} == net;
  }

  // A matching packet in flight is counted.
  lemma TallyPositive(net: multiset<Packet>, probe: Probe, p: Packet)
    requires p in net && Matches(probe, p)
    ensures Tally(net, probe) > 0
  {
    TallyRemove(net, probe, p);
  }

  lemma {:induction false} TallyWitness(net: multiset<Packet>, probe: Probe) returns (p: Packet)
    requires Tally(net, probe) > 0
    ensures p in net && Matches(probe, p)
    decreases |net|
  {
    var q := TallyPicks(net, probe);
    if Matches(probe, q) {
      p := q;
    } else {
      p := TallyWitness(net - multiset{q}, probe);
    }
  }

  /** The nodes whose copy of a broadcast the probe counts. */
  ghost function Reached(nodes: set<Name>, m: Message, probe: Probe): set<Name> {
    set n | n in nodes && Matches(probe, Packet(SERVER, n, m))
  }

  lemma {:induction false} TallyBroadcast(net: multiset<Packet>, nodes: set<Name>, m: Message, probe: Probe)
    ensures Tally(net + Broadcast(nodes, m), probe) == Tally(net, probe) + |Reached(nodes, m, probe)|
    decreases |nodes|
  {
    hide Reached;
    hide Matches;
    hide Broadcast;
    if nodes == {} {
      ReachedNone(m, probe);
      assert net + Broadcast(nodes, m) == net;
    } else {
      var n :| n in nodes;
      var p := Packet(SERVER, n, m);
      TallyBroadcast(net, nodes - {n}, m, probe);
      BroadcastOne(nodes, n, m);
      assert net + Broadcast(nodes, m) == net + Broadcast(nodes - {n}, m) + multiset{p};
      TallyAdd(net + Broadcast(nodes - {n}, m), probe, p);
      ReachedOne(nodes, n, m, probe);
    }
  }

  lemma ReachedNone(m: Message, probe: Probe)
    ensures Reached({}, m, probe) == {} && Broadcast({}, m) == multiset{}
  {
  }

  lemma ReachedOne(nodes: set<Name>, n: Name, m: Message, probe: Probe)
    requires n in nodes
    ensures |Reached(nodes, m, probe)| == |Reached(nodes - {n}, m, probe)| + One(Matches(probe, Packet(SERVER, n, m)))
  {
    hide Matches;
    if Matches(probe, Packet(SERVER, n, m)) {
      assert Reached(nodes, m, probe) == Reached(nodes - {n}, m, probe) + {n};
    } else {
      assert Reached(nodes, m, probe) == Reached(nodes - {n}, m, probe);
    }
  }

  lemma BroadcastOne(nodes: set<Name>, n: Name, m: Message)
    requires n in nodes
    ensures Broadcast(nodes, m) == Broadcast(nodes - {n}, m) + multiset{Packet(SERVER, n, m)}
  {
    var all, rest := set x | x in nodes :: Packet(SERVER, x, m), set x | x in nodes - {n} :: Packet(SERVER, x, m);
    assert all == rest + {Packet(SERVER, n, m)};
    assert Packet(SERVER, n, m) !in rest;
  }

  lemma InBroadcast(nodes: set<Name>, m: Message, p: Packet)
    ensures p in Broadcast(nodes, m) <==> p.from == SERVER && p.to in nodes && p.msg == m
  {
  }
}
