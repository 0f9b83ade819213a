/** Any number of collage commits over one network that may reorder and lose
    messages but not duplicate them. */
module CommitProtocol {
  import opened Messages
  import opened UserNode
  import opened Coordinator

  /** One commit: what its coordinator knows, and a record of what happened to
      it - which nodes have answered yes and no, how many noes were counted,
      which nodes have handled its decision. */
  datatype Txn = Txn(img: Image, sources: seq<Source>, ballot: Ballot, decided: bool,
                     yes: set<Name>, no: set<Name>, noes: nat, told: set<Name>)

  /** `freed` and `lost` record what happened: images unlocked by a decision
      while another commit held them, and whether a message was lost. */
  datatype World = World(nodes: map<Name, NodeState>, txns: map<Name, Txn>, net: multiset<Packet>,
                         collages: map<Name, Image>, freed: set<(Name, Name)>, lost: bool)

  datatype Step =
    | Begin(filename: Name, img: Image, sources: seq<Source>)
    | AtNode(p: Packet, consent: bool)
    | AtServer(filename: Name, p: Packet)
    | Finish(filename: Name)
    | Lose(p: Packet)

  function Nodes(t: Txn): set<Name> {
    NodesOf(t.sources)
  }

  /** Collages have distinct names, and no user node is called Server. */
  predicate Enabled(w: World, step: Step) {
    match step
    case Begin(f, _, sources) => f !in w.txns && NodesOf(sources) <= w.nodes.Keys
    case AtNode(p, _) => p in w.net && p.to in w.nodes
    case AtServer(f, p) =>
      f in w.txns && !w.txns[f].decided && w.txns[f].ballot.votes < |Nodes(w.txns[f])|
      && p in w.net && p.to == SERVER
    case Finish(f) => f in w.txns && !w.txns[f].decided && w.txns[f].ballot.votes >= |Nodes(w.txns[f])|
    case Lose(p) => p in w.net
  }

  /** Node n has answered f with yes for this image and has not handled f's
      decision yet. */
  ghost predicate Holds(w: World, f: Name, n: Name, img: Name) {
    f in w.txns && n in w.txns[f].yes && n !in w.txns[f].told && img in ImagesOf(w.txns[f].sources, n)
  }

  ghost predicate HeldByAnother(w: World, f: Name, n: Name, img: Name) {
    exists g :: g != f && Holds(w, g, n, img)
  }

  /** The record kept when node p.to handles p and sends `sent`. */
  ghost function Record(t: Txn, p: Packet, vote: bool): Txn {
    match p.msg.kind
    case PREPARE => if vote then t.(yes := t.yes + {p.to}) else t.(no := t.no + {p.to})
    case DECISION => t.(told := t.told + {p.to})
    case _ => t
  }

  ghost function Freed(w: World, p: Packet): set<(Name, Name)> {
    if p.msg.kind == DECISION then
      set img | img in ImagesOf(p.msg.sources, p.to) && HeldByAnother(w, p.msg.filename, p.to, img) :: (p.to, img)
    else {}
  }

  ghost function Next(w: World, step: Step): World
    requires Enabled(w, step)
  {
    match step
    case Begin(f, img, sources) =>
      w.(txns := w.txns[f := Txn(img, sources, Ballot(0, true), false, {}, {}, 0, {})],
         net := w.net + Broadcast(NodesOf(sources), Message(f, img, sources, PREPARE, false)))
    case AtNode(p, consent) =>
      var (st, sent) := Deliver(w.nodes[p.to], p.to, p, consent);
      var vote := Available(w.nodes[p.to], ImagesOf(p.msg.sources, p.to)) && consent;
      w.(nodes := w.nodes[p.to := st], net := w.net - multiset{p} + sent, freed := w.freed + Freed(w, p),
         txns := if p.msg.filename in w.txns
           then w.txns[p.msg.filename := Record(w.txns[p.msg.filename], p, vote)] else w.txns)
    case AtServer(f, p) =>
      var t := w.txns[f];
      var (b, again) := Hear(t.ballot, f, p);
      w.(txns := w.txns[f := t.(ballot := b, noes := t.noes + One(Matches(Replies(f, false), p)))],
         net := w.net - multiset{p} + again)
    case Finish(f) =>
      var t := w.txns[f];
      w.(txns := w.txns[f := t.(decided := true)],
         net := w.net + Broadcast(Nodes(t), Message(f, t.img, t.sources, DECISION, t.ballot.canCommit)),
         collages := if t.ballot.canCommit then w.collages[f := t.img] else w.collages)
    case Lose(p) => w.(net := w.net - multiset{p}, lost := true)
  }

  ghost predicate Legal(w: World, steps: seq<Step>)
    decreases |steps|
  {
    steps != [] ==> Enabled(w, steps[0]) && Legal(Next(w, steps[0]), steps[1..])
  }

  ghost function Run(w: World, steps: seq<Step>): World
    requires Legal(w, steps)
    decreases |steps|
  {
    if steps == [] then w else Run(Next(w, steps[0]), steps[1..])
  }

  ghost predicate Initial(w: World) {
    && SERVER !in w.nodes && w.txns == map[] && w.net == multiset{} && w.collages == map[]
    && w.freed == {} && !w.lost
    && forall n :: n in w.nodes ==> w.nodes[n].locked == {}
  }

  // ---- what each step of a handler changes

  lemma PrepareStep(w: World, p: Packet, consent: bool)
    requires Enabled(w, AtNode(p, consent)) && p.msg.kind == PREPARE && p.msg.filename in w.txns
    ensures var f, n, images := p.msg.filename, p.to, ImagesOf(p.msg.sources, p.to);
      var vote := Available(w.nodes[n], images) && consent;
      Next(w, AtNode(p, consent)) == w.(
        net := w.net - multiset{p} + multiset{Reply(n, p, vote)},
        nodes := w.nodes[n := if vote then w.nodes[n].(locked := w.nodes[n].locked + images) else w.nodes[n]],
        txns := w.txns[f := if vote then w.txns[f].(yes := w.txns[f].yes + {n}) else w.txns[f].(no := w.txns[f].no + {n})])
  {
    hide ImagesOf;
    hide Available;
    assert w.freed + {} == w.freed;
  }

  lemma DecisionStep(w: World, p: Packet, consent: bool)
    requires Enabled(w, AtNode(p, consent)) && p.msg.kind == DECISION && p.msg.filename in w.txns
    ensures var f, n, images := p.msg.filename, p.to, ImagesOf(p.msg.sources, p.to);
      Next(w, AtNode(p, consent)) == w.(
        net := w.net - multiset{p},
        nodes := w.nodes[n := NodeState(if p.msg.vote then w.nodes[n].files - images else w.nodes[n].files,
                                        w.nodes[n].locked - images)],
        txns := w.txns[f := w.txns[f].(told := w.txns[f].told + {n})],
        freed := w.freed + (set img | img in images && HeldByAnother(w, f, n, img) :: (n, img)))
  {
    hide ImagesOf;
    hide HeldByAnother;
    assert w.net - multiset{p} + multiset{} == w.net - multiset{p};
  }

  lemma CountStep(w: World, f: Name, p: Packet)
    requires Enabled(w, AtServer(f, p)) && p.msg.filename == f && p.msg.kind == REPLY
    ensures var t := w.txns[f];
      Next(w, AtServer(f, p)) == w.(
        net := w.net - multiset{p},
        txns := w.txns[f := t.(ballot := Ballot(t.ballot.votes + 1, t.ballot.canCommit && p.msg.vote),
                               noes := t.noes + One(!p.msg.vote))])
  {
    assert w.net - multiset{p} + multiset{} == w.net - multiset{p};
  }

  lemma ResendStep(w: World, f: Name, p: Packet)
    requires Enabled(w, AtServer(f, p)) && p.msg.filename != f
    ensures Next(w, AtServer(f, p)) == w.(net := w.net - multiset{p} + multiset{Packet(SERVER, SERVER, p.msg)})
  {
    var t := w.txns[f];
    assert t.(ballot := t.ballot, noes := t.noes + 0) == t;
    assert w.txns[f := t] == w.txns;
  }

  // ---- what the network carries

  ghost predicate PacketOk(w: World, p: Packet) {
    && p.msg.filename in w.txns
    && var t := w.txns[p.msg.filename];
    && p.msg.sources == t.sources && p.msg.img == t.img
    && match p.msg.kind
       case PREPARE => p.from == SERVER && p.to in Nodes(t)
       case REPLY => p.to == SERVER
       case DECISION => p.from == SERVER && p.to in Nodes(t) && t.decided && p.msg.vote == t.ballot.canCommit
       case ACK => false
  }

  /** Equal, or after a loss at most. */
  predicate Within(a: int, b: int, lost: bool) {
    if lost then a <= b else a == b
  }

  ghost predicate RecordOk(t: Txn) {
    && t.yes !! t.no && t.yes + t.no <= Nodes(t) && t.told <= Nodes(t) && (t.told != {} ==> t.decided)
    && t.noes <= t.ballot.votes && (t.ballot.canCommit <==> t.noes == 0)
    && (t.decided ==> t.ballot.votes >= |Nodes(t)|)
  }

  /** Every answer a node has given is a reply in flight or a vote counted. */
  ghost predicate RepliesOk(net: multiset<Packet>, f: Name, t: Txn, lost: bool) {
    && Within(Tally(net, Replies(f, true)) + t.ballot.votes - t.noes, |t.yes|, lost)
    && Within(Tally(net, Replies(f, false)) + t.noes, |t.no|, lost)
  }

  /** A node has a PREPARE in flight until it answers. */
  ghost predicate PreparesOk(net: multiset<Packet>, f: Name, t: Txn, lost: bool) {
    forall n :: Within(Tally(net, Prepares(f, n)), One(n in Nodes(t) && n !in t.yes && n !in t.no), lost)
  }

  /** A node has a DECISION in flight from the decision until it handles it. */
  ghost predicate DecisionsOk(net: multiset<Packet>, f: Name, t: Txn, lost: bool) {
    forall n :: Within(Tally(net, Decisions(f, n)), One(n in Nodes(t) && t.decided && n !in t.told), lost)
  }

  /** Conservation of one commit's messages. */
  ghost predicate CountsOk(net: multiset<Packet>, f: Name, t: Txn, lost: bool) {
    RecordOk(t) && RepliesOk(net, f, t, lost) && PreparesOk(net, f, t, lost) && DecisionsOk(net, f, t, lost)
  }

  ghost predicate Sane(w: World) {
    && SERVER !in w.nodes
    && (forall f :: f in w.txns ==> Nodes(w.txns[f]) <= w.nodes.Keys)
    && (forall p :: p in w.net ==> PacketOk(w, p))
    && (forall f :: f in w.txns ==> CountsOk(w.net, f, w.txns[f], w.lost))
  }

  lemma TallyZero(net: multiset<Packet>, probe: Probe)
    requires forall p :: p in net ==> !Matches(probe, p)
    ensures Tally(net, probe) == 0
  {
    if Tally(net, probe) > 0 {
      var p := TallyWitness(net, probe);
      assert false;
    }
  }

  lemma TallySwap(net: multiset<Packet>, probe: Probe, p: Packet, q: Packet)
    requires p in net
    ensures Tally(net - multiset{p} + multiset{q}, probe) ==
      Tally(net, probe) - One(Matches(probe, p)) + One(Matches(probe, q))
  {
    TallyRemove(net, probe, p);
    TallyAdd(net - multiset{p}, probe, q);
  }

  // Packets of other collages do not change the counts.
  lemma OthersDoNotCount(net: multiset<Packet>, net': multiset<Packet>, f: Name, t: Txn, lost: bool)
    requires CountsOk(net, f, t, lost)
    requires forall probe: Probe :: !probe.AllOf? && probe.filename == f ==> Tally(net', probe) == Tally(net, probe)
    ensures CountsOk(net', f, t, lost)
  {
    hide Tally;
    hide NodesOf;
    hide PreparesOk;
    hide DecisionsOk;
    hide RepliesOk;
    SamePrepares(net, net', f, t, t, lost);
    SameReplies(net, net', f, t, t, lost);
    SameDecisions(net, net', f, t, t, lost);
  }

  // ---- what is recorded stays

  /** Nothing about a commit is taken back. */
  ghost predicate Grown(t: Txn, t': Txn) {
    && t'.sources == t.sources && t'.img == t.img
    && (t.decided ==> t'.decided && t'.ballot == t.ballot)
    && t.yes <= t'.yes && t.no <= t'.no && t.told <= t'.told
  }

  ghost predicate AllGrown(w: World, w': World) {
    forall f :: f in w.txns ==> f in w'.txns && Grown(w.txns[f], w'.txns[f])
  }

  lemma NextGrows(w: World, step: Step)
    requires Enabled(w, step)
    ensures AllGrown(w, Next(w, step))
  {
    hide Deliver;
    hide Freed;
    hide Broadcast;
  }

  lemma PacketStaysOk(w: World, w': World, p: Packet)
    requires AllGrown(w, w') && PacketOk(w, p)
    ensures PacketOk(w', p)
  {
    hide NodesOf;
  }

  // ---- one lemma per step

  lemma BeginSane(w: World, f: Name, img: Image, sources: seq<Source>)
    requires Sane(w) && Enabled(w, Begin(f, img, sources))
    ensures Sane(Next(w, Begin(f, img, sources)))
  {
    hide CountsOk;
    hide Tally;
    hide Broadcast;
    hide NodesOf;
    hide ImagesOf;
    var w' := Next(w, Begin(f, img, sources));
    NextGrows(w, Begin(f, img, sources));
    var nodes, m := NodesOf(sources), Message(f, img, sources, PREPARE, false);
    forall p | p in w'.net ensures PacketOk(w', p) {
      InBroadcast(nodes, m, p);
      if p in w.net { PacketStaysOk(w, w', p); }
    }
    forall g | g in w'.txns ensures CountsOk(w'.net, g, w'.txns[g], w'.lost) {
      if g == f {
        NewCounts(w, f, m, nodes, w'.txns[f]);
      } else {
        forall probe: Probe | !probe.AllOf? && probe.filename == g
          ensures Tally(w'.net, probe) == Tally(w.net, probe)
        {
          TallyBroadcast(w.net, nodes, m, probe);
          assert Reached(nodes, m, probe) == {};
        }
        OthersDoNotCount(w.net, w'.net, g, w.txns[g], w.lost);
      }
    }
  }

  lemma NewCounts(w: World, f: Name, m: Message, nodes: set<Name>, t: Txn)
    requires Sane(w) && f !in w.txns && m.filename == f && m.kind == PREPARE
    requires t == Txn(m.img, m.sources, Ballot(0, true), false, {}, {}, 0, {}) && nodes == Nodes(t)
    ensures CountsOk(w.net + Broadcast(nodes, m), f, t, w.lost)
  {
    hide Tally;
    hide NodesOf;
    forall probe: Probe | !probe.AllOf? && probe.filename == f
      ensures Tally(w.net + Broadcast(nodes, m), probe) == One(probe.Prepares? && probe.node in nodes)
    {
      forall p | p in w.net ensures !Matches(probe, p) { assert PacketOk(w, p); }
      TallyZero(w.net, probe);
      TallyBroadcast(w.net, nodes, m, probe);
      assert Reached(nodes, m, probe) == if probe.Prepares? && probe.node in nodes then {probe.node} else {};
    }
  }

  lemma FinishSane(w: World, f: Name)
    requires Sane(w) && Enabled(w, Finish(f))
    ensures Sane(Next(w, Finish(f)))
  {
    hide CountsOk;
    hide Tally;
    hide Broadcast;
    hide NodesOf;
    hide ImagesOf;
    var w' := Next(w, Finish(f));
    NextGrows(w, Finish(f));
    var t, t' := w.txns[f], w'.txns[f];
    var nodes, m := Nodes(t), Message(f, t.img, t.sources, DECISION, t.ballot.canCommit);
    forall p | p in w'.net ensures PacketOk(w', p) {
      InBroadcast(nodes, m, p);
      if p in w.net { PacketStaysOk(w, w', p); }
    }
    forall g | g in w'.txns ensures CountsOk(w'.net, g, w'.txns[g], w'.lost) {
      forall probe: Probe | !probe.AllOf? && probe.filename == g
        ensures Tally(w'.net, probe) ==
          Tally(w.net, probe) + One(g == f && probe.Decisions? && probe.node in nodes)
      {
        TallyBroadcast(w.net, nodes, m, probe);
        assert Reached(nodes, m, probe) ==
          if g == f && probe.Decisions? && probe.node in nodes then {probe.node} else {};
      }
      if g == f {
        DecisionsSent(w.net, w'.net, f, t, t', w.lost);
      } else {
        OthersDoNotCount(w.net, w'.net, g, w.txns[g], w.lost);
      }
    }
  }

  lemma DecisionsSent(net: multiset<Packet>, net': multiset<Packet>, f: Name, t: Txn, t': Txn, lost: bool)
    requires CountsOk(net, f, t, lost) && !t.decided && t.ballot.votes >= |Nodes(t)| && t' == t.(decided := true)
    requires forall probe: Probe :: !probe.AllOf? && probe.filename == f ==>
      Tally(net', probe) == Tally(net, probe) + One(probe.Decisions? && probe.node in Nodes(t))
    ensures CountsOk(net', f, t', lost)
  {
    hide Tally;
    hide NodesOf;
    hide PreparesOk;
    hide RepliesOk;
    forall x ensures Within(Tally(net', Decisions(f, x)), One(x in Nodes(t') && t'.decided && x !in t'.told), lost) {
      assert Within(Tally(net, Decisions(f, x)), One(x in Nodes(t) && t.decided && x !in t.told), lost);
    }
    SamePrepares(net, net', f, t, t', lost);
    SameReplies(net, net', f, t, t', lost);
  }

  lemma LoseSane(w: World, p: Packet)
    requires Sane(w) && Enabled(w, Lose(p))
    ensures Sane(Next(w, Lose(p)))
  {
    hide CountsOk;
    hide Tally;
    hide Broadcast;
    hide NodesOf;
    hide ImagesOf;
    var w' := Next(w, Lose(p));
    forall q | q in w'.net ensures PacketOk(w', q) { assert PacketOk(w, q); }
    forall f | f in w'.txns ensures CountsOk(w'.net, f, w'.txns[f], w'.lost) {
      forall probe: Probe ensures Tally(w'.net, probe) <= Tally(w.net, probe) {
        TallyRemove(w.net, probe, p);
      }
      FewerCounts(w.net, w'.net, f, w.txns[f], w.lost);
    }
  }

  lemma FewerCounts(net: multiset<Packet>, net': multiset<Packet>, f: Name, t: Txn, lost: bool)
    requires CountsOk(net, f, t, lost)
    requires forall probe: Probe :: Tally(net', probe) <= Tally(net, probe)
    ensures CountsOk(net', f, t, true)
  {
    hide Tally;
  }

  // A coordinator counts a reply of its own, or sends a foreign one again.
  lemma AtServerSane(w: World, f: Name, p: Packet)
    requires Sane(w) && Enabled(w, AtServer(f, p))
    ensures Sane(Next(w, AtServer(f, p)))
  {
    hide CountsOk;
    hide Tally;
    hide NodesOf;
    var w' := Next(w, AtServer(f, p));
    ServerGetsReplies(w, p);
    var q := Packet(SERVER, SERVER, p.msg);
    var own := p.msg.filename == f;
    if own { CountStep(w, f, p); } else { ResendStep(w, f, p); }
    NextGrows(w, AtServer(f, p));
    hide Next;
    forall x | x in w'.net ensures PacketOk(w', x) {
      if x in w.net {
        PacketStaysOk(w, w', x);
      } else {
        assert PacketOk(w, p);
        assert PacketOk(w', q);
      }
    }
    forall g | g in w'.txns ensures CountsOk(w'.net, g, w'.txns[g], w'.lost) {
      AtServerCounts(w, f, p, g);
    }
  }

  lemma AtServerCounts(w: World, f: Name, p: Packet, g: Name)
    requires Sane(w) && Enabled(w, AtServer(f, p)) && g in w.txns && p.msg.kind == REPLY
    ensures var w' := Next(w, AtServer(f, p)); CountsOk(w'.net, g, w'.txns[g], w'.lost)
  {
    hide CountsOk;
    hide Tally;
    hide NodesOf;
    hide PacketOk;
    hide Next;
    var w' := Next(w, AtServer(f, p));
    var q := Packet(SERVER, SERVER, p.msg);
    var own := p.msg.filename == f;
    if own { CountStep(w, f, p); } else { ResendStep(w, f, p); }
    forall probe: Probe | !probe.AllOf? && probe.filename == g
      ensures Tally(w'.net, probe) == Tally(w.net, probe) - One(own && Matches(probe, p))
    {
      if own {
        TallyRemove(w.net, probe, p);
      } else {
        TallySwap(w.net, probe, p, q);
      }
    }
    if g == f && own {
      OneReplyCounted(w.net, w'.net, f, w.txns[f], w'.txns[f], p.msg.vote, w.lost);
    } else {
      OthersDoNotCount(w.net, w'.net, g, w.txns[g], w.lost);
    }
  }

  // Only replies are addressed to the server.
  lemma ServerGetsReplies(w: World, p: Packet)
    requires Sane(w) && p in w.net && p.to == SERVER
    ensures p.msg.kind == REPLY
  {
    assert PacketOk(w, p);
    assert Nodes(w.txns[p.msg.filename]) <= w.nodes.Keys;
  }

  lemma RepliesAfterCount(net: multiset<Packet>, net': multiset<Packet>, f: Name, t: Txn, t': Txn, vote: bool, lost: bool)
    requires RepliesOk(net, f, t, lost)
    requires t' == t.(ballot := Ballot(t.ballot.votes + 1, t.ballot.canCommit && vote), noes := t.noes + One(!vote))
    requires forall v :: Tally(net', Replies(f, v)) == Tally(net, Replies(f, v)) - One(v == vote)
    ensures RepliesOk(net', f, t', lost)
  {
    hide Tally;
  }

  lemma OneReplyCounted(net: multiset<Packet>, net': multiset<Packet>, f: Name, t: Txn, t': Txn, vote: bool, lost: bool)
    requires CountsOk(net, f, t, lost) && !t.decided
    requires t' == t.(ballot := Ballot(t.ballot.votes + 1, t.ballot.canCommit && vote), noes := t.noes + One(!vote))
    requires forall probe: Probe :: !probe.AllOf? && probe.filename == f ==>
      Tally(net', probe) == Tally(net, probe) - One(probe == Replies(f, vote))
    ensures CountsOk(net', f, t', lost)
  {
    hide Tally;
    hide NodesOf;
    hide PreparesOk;
    hide DecisionsOk;
    hide RepliesOk;
    RepliesAfterCount(net, net', f, t, t', vote, lost);
    SamePrepares(net, net', f, t, t', lost);
    SameDecisions(net, net', f, t, t', lost);
  }

  lemma AtNodeSane(w: World, p: Packet, consent: bool)
    requires Sane(w) && Enabled(w, AtNode(p, consent))
    ensures Sane(Next(w, AtNode(p, consent)))
  {
    var w' := Next(w, AtNode(p, consent));
    AtNodePackets(w, p, consent);
    hide CountsOk;
    hide Tally;
    hide NodesOf;
    hide ImagesOf;
    hide PacketOk;
    hide Next;
    forall g | g in w'.txns ensures CountsOk(w'.net, g, w'.txns[g], w'.lost) {
      AtNodeCounts(w, p, consent, g);
    }
  }

  lemma ReplyOk(w: World, w': World, p: Packet, q: Packet)
    requires AllGrown(w, w') && PacketOk(w, p) && p.from == SERVER && q == Reply(p.to, p, q.msg.vote)
    ensures PacketOk(w', q)
  {
    hide NodesOf;
  }

  // A message handled at a node leaves the net, and a PREPARE brings a reply.
  lemma AtNodeShape(w: World, p: Packet, consent: bool)
    requires Enabled(w, AtNode(p, consent)) && p.msg.filename in w.txns && p.from == SERVER
    requires p.msg.kind == PREPARE || p.msg.kind == DECISION
    ensures var w' := Next(w, AtNode(p, consent));
      && (w'.net == w.net - multiset{p}
          || exists vote :: w'.net == w.net - multiset{p} + multiset{Reply(p.to, p, vote)})
      && w'.nodes.Keys == w.nodes.Keys && w'.txns.Keys == w.txns.Keys
  {
    hide Next;
    hide ImagesOf;
    hide Available;
    hide HeldByAnother;
    if p.msg.kind == PREPARE {
      PrepareStep(w, p, consent);
    } else {
      DecisionStep(w, p, consent);
    }
  }

  lemma AtNodePackets(w: World, p: Packet, consent: bool)
    requires Sane(w) && Enabled(w, AtNode(p, consent))
    ensures var w' := Next(w, AtNode(p, consent));
      && (forall x :: x in w'.net ==> PacketOk(w', x))
      && w'.nodes.Keys == w.nodes.Keys && w'.txns.Keys == w.txns.Keys
      && (forall f :: f in w.txns ==> w'.txns[f].sources == w.txns[f].sources)
  {
    hide CountsOk;
    hide NodesOf;
    hide Next;
    NextGrows(w, AtNode(p, consent));
    assert PacketOk(w, p);
    AtNodeShape(w, p, consent);
    PacketsStayOk(w, Next(w, AtNode(p, consent)), p);
  }

  lemma PacketsStayOk(w: World, w': World, p: Packet)
    requires AllGrown(w, w') && p in w.net && forall x :: x in w.net ==> PacketOk(w, x)
    requires w'.net == w.net - multiset{p} || (p.from == SERVER
      && exists vote :: w'.net == w.net - multiset{p} + multiset{Reply(p.to, p, vote)})
    ensures forall x :: x in w'.net ==> PacketOk(w', x)
  {
    hide PacketOk;
    hide AllGrown;
    forall x | x in w'.net ensures PacketOk(w', x) {
      if x in w.net {
        PacketStaysOk(w, w', x);
      } else {
        ReplyOk(w, w', p, x);
      }
    }
  }

  lemma AtNodeCounts(w: World, p: Packet, consent: bool, g: Name)
    requires Sane(w) && Enabled(w, AtNode(p, consent)) && g in w.txns
    ensures var w' := Next(w, AtNode(p, consent)); CountsOk(w'.net, g, w'.txns[g], w'.lost)
  {
    hide CountsOk;
    hide Tally;
    hide NodesOf;
    hide ImagesOf;
    hide Available;
    hide Freed;
    var w' := Next(w, AtNode(p, consent));
    var f := p.msg.filename;
    assert PacketOk(w, p);
    var vote := Available(w.nodes[p.to], ImagesOf(p.msg.sources, p.to)) && consent;
    var q := Reply(p.to, p, vote);
    var asks := p.msg.kind == PREPARE;
    if asks { PrepareStep(w, p, consent); } else { DecisionStep(w, p, consent); }
    hide Next;
    forall probe: Probe | !probe.AllOf? && probe.filename == g
      ensures Tally(w'.net, probe) == Tally(w.net, probe) - One(Matches(probe, p)) + One(asks && Matches(probe, q))
    {
      if asks {
        TallySwap(w.net, probe, p, q);
      } else {
        TallyRemove(w.net, probe, p);
      }
    }
    if g != f {
      OthersDoNotCount(w.net, w'.net, g, w.txns[g], w.lost);
    } else if asks {
      TallyPositive(w.net, Prepares(f, p.to), p);
      AnswerCounted(w.net, w'.net, f, w.txns[f], w'.txns[f], p.to, vote, w.lost);
    } else {
      TallyPositive(w.net, Decisions(f, p.to), p);
      DecisionCounted(w.net, w'.net, f, w.txns[f], w'.txns[f], p.to, w.lost);
    }
  }

  lemma AnswerCounted(net: multiset<Packet>, net': multiset<Packet>, f: Name, t: Txn, t': Txn, n: Name, vote: bool, lost: bool)
    requires CountsOk(net, f, t, lost) && n in Nodes(t) && Tally(net, Prepares(f, n)) > 0
    requires t' == if vote then t.(yes := t.yes + {n}) else t.(no := t.no + {n})
    requires forall probe: Probe :: !probe.AllOf? && probe.filename == f ==>
      Tally(net', probe) == Tally(net, probe) - One(probe == Prepares(f, n)) + One(probe == Replies(f, vote))
    ensures CountsOk(net', f, t', lost)
  {
    hide Tally;
    hide NodesOf;
    hide PreparesOk;
    hide DecisionsOk;
    hide RepliesOk;
    PreparesAfterAnswer(net, net', f, t, t', n, lost);
    RepliesAfterAnswer(net, net', f, t, t', n, vote, lost);
    SameDecisions(net, net', f, t, t', lost);
  }

  lemma PreparesAfterAnswer(net: multiset<Packet>, net': multiset<Packet>, f: Name, t: Txn, t': Txn, n: Name, lost: bool)
    requires PreparesOk(net, f, t, lost) && n in Nodes(t) && Tally(net, Prepares(f, n)) > 0
    requires Nodes(t') == Nodes(t) && t'.yes + t'.no == t.yes + t.no + {n}
    requires forall x :: Tally(net', Prepares(f, x)) == Tally(net, Prepares(f, x)) - One(x == n)
    ensures n !in t.yes && n !in t.no && PreparesOk(net', f, t', lost)
  {
    hide Tally;
    hide NodesOf;
    assert Within(Tally(net, Prepares(f, n)), One(n in Nodes(t) && n !in t.yes && n !in t.no), lost);
    forall x ensures Within(Tally(net', Prepares(f, x)), One(x in Nodes(t') && x !in t'.yes && x !in t'.no), lost) {
      assert Within(Tally(net, Prepares(f, x)), One(x in Nodes(t) && x !in t.yes && x !in t.no), lost);
      assert (x in t'.yes || x in t'.no) <==> x in t.yes + t.no + {n};
    }
  }

  lemma RepliesAfterAnswer(net: multiset<Packet>, net': multiset<Packet>, f: Name, t: Txn, t': Txn, n: Name, vote: bool, lost: bool)
    requires RepliesOk(net, f, t, lost) && n !in t.yes && n !in t.no
    requires t' == if vote then t.(yes := t.yes + {n}) else t.(no := t.no + {n})
    requires forall v :: Tally(net', Replies(f, v)) == Tally(net, Replies(f, v)) + One(v == vote)
    ensures RepliesOk(net', f, t', lost)
  {
    hide Tally;
  }

  lemma SameDecisions(net: multiset<Packet>, net': multiset<Packet>, f: Name, t: Txn, t': Txn, lost: bool)
    requires DecisionsOk(net, f, t, lost)
    requires Nodes(t) == Nodes(t') && t.decided == t'.decided && t.told == t'.told
    requires forall x :: Tally(net', Decisions(f, x)) == Tally(net, Decisions(f, x))
    ensures DecisionsOk(net', f, t', lost)
  {
    hide Tally;
    forall x ensures Within(Tally(net', Decisions(f, x)), One(x in Nodes(t') && t'.decided && x !in t'.told), lost) {
      assert Within(Tally(net, Decisions(f, x)), One(x in Nodes(t) && t.decided && x !in t.told), lost);
    }
  }

  lemma SamePrepares(net: multiset<Packet>, net': multiset<Packet>, f: Name, t: Txn, t': Txn, lost: bool)
    requires PreparesOk(net, f, t, lost)
    requires Nodes(t) == Nodes(t') && t.yes == t'.yes && t.no == t'.no
    requires forall x :: Tally(net', Prepares(f, x)) == Tally(net, Prepares(f, x))
    ensures PreparesOk(net', f, t', lost)
  {
    hide Tally;
    forall x ensures Within(Tally(net', Prepares(f, x)), One(x in Nodes(t') && x !in t'.yes && x !in t'.no), lost) {
      assert Within(Tally(net, Prepares(f, x)), One(x in Nodes(t) && x !in t.yes && x !in t.no), lost);
    }
  }

  lemma DecisionCounted(net: multiset<Packet>, net': multiset<Packet>, f: Name, t: Txn, t': Txn, n: Name, lost: bool)
    requires CountsOk(net, f, t, lost) && n in Nodes(t) && Tally(net, Decisions(f, n)) > 0
    requires t' == t.(told := t.told + {n})
    requires forall probe: Probe :: !probe.AllOf? && probe.filename == f ==>
      Tally(net', probe) == Tally(net, probe) - One(probe == Decisions(f, n))
    ensures CountsOk(net', f, t', lost)
  {
    hide Tally;
    hide NodesOf;
    hide PreparesOk;
    hide DecisionsOk;
    hide RepliesOk;
    DecisionsAfterOne(net, net', f, t, t', n, lost);
    SamePrepares(net, net', f, t, t', lost);
    assert RepliesOk(net', f, t', lost) by { SameReplies(net, net', f, t, t', lost); }
  }

  lemma SameReplies(net: multiset<Packet>, net': multiset<Packet>, f: Name, t: Txn, t': Txn, lost: bool)
    requires RepliesOk(net, f, t, lost)
    requires t.ballot == t'.ballot && t.noes == t'.noes && t.yes == t'.yes && t.no == t'.no
    requires forall v :: Tally(net', Replies(f, v)) == Tally(net, Replies(f, v))
    ensures RepliesOk(net', f, t', lost)
  {
    hide Tally;
  }

  lemma DecisionsAfterOne(net: multiset<Packet>, net': multiset<Packet>, f: Name, t: Txn, t': Txn, n: Name, lost: bool)
    requires DecisionsOk(net, f, t, lost) && n in Nodes(t) && Tally(net, Decisions(f, n)) > 0
    requires t' == t.(told := t.told + {n})
    requires forall x :: Tally(net', Decisions(f, x)) == Tally(net, Decisions(f, x)) - One(x == n)
    ensures n !in t.told && t.decided && DecisionsOk(net', f, t', lost)
  {
    hide Tally;
    hide NodesOf;
    assert Within(Tally(net, Decisions(f, n)), One(n in Nodes(t) && t.decided && n !in t.told), lost);
    forall x ensures Within(Tally(net', Decisions(f, x)), One(x in Nodes(t') && t'.decided && x !in t'.told), lost) {
      assert Within(Tally(net, Decisions(f, x)), One(x in Nodes(t) && t.decided && x !in t.told), lost);
    }
  }

  lemma NextSane(w: World, step: Step)
    requires Sane(w) && Enabled(w, step)
    ensures Sane(Next(w, step))
  {
    hide Next;
    hide Sane;
    match step
    case Begin(f, img, sources) => BeginSane(w, f, img, sources);
    case AtNode(p, consent) => AtNodeSane(w, p, consent);
    case AtServer(f, p) => AtServerSane(w, f, p);
    case Finish(f) => FinishSane(w, f);
    case Lose(p) => LoseSane(w, p);
  }
}
