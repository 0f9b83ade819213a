/** What every run of the collage commit keeps: agreement, and conservation of
    its replies. */
module CommitTheorems {
  import opened Messages
  import opened UserNode
  import opened Coordinator
  import opened CommitProtocol

  lemma {:induction false} RunsAreSane(w: World, steps: seq<Step>)
    requires Sane(w) && Legal(w, steps)
    ensures Sane(Run(w, steps))
    decreases |steps|
  {
    hide Sane;
    hide Next;
    if steps != [] {
      NextSane(w, steps[0]);
      RunsAreSane(Next(w, steps[0]), steps[1..]);
    }
  }

  lemma InitialSane(w: World)
    requires Initial(w)
    ensures Sane(w)
  {
  }

  // ---- what is decided stays decided

  lemma {:induction false} RunsGrow(w: World, steps: seq<Step>)
    requires Legal(w, steps)
    ensures AllGrown(w, Run(w, steps))
    decreases |steps|
  {
    hide Next;
    if steps != [] {
      NextGrows(w, steps[0]);
      RunsGrow(Next(w, steps[0]), steps[1..]);
    }
  }

  // ---- votes

  // No more votes than nodes; a decision has them all.
  lemma VotesBounded(w: World, f: Name)
    requires Sane(w) && f in w.txns
    ensures var t := w.txns[f];
      && t.ballot.votes <= |t.yes| + |t.no| <= |Nodes(t)|
      && (t.decided ==> t.yes + t.no == Nodes(t) && t.ballot.votes == |Nodes(t)| && t.noes == |t.no|)
  {
    hide Tally;
    hide NodesOf;
    var t := w.txns[f];
    assert CountsOk(w.net, f, t, w.lost);
    assert |t.yes + t.no| == |t.yes| + |t.no|;
    SubsetSize(t.yes + t.no, Nodes(t));
  }

  lemma {:induction false} SubsetSize<T>(a: set<T>, b: set<T>)
    requires a <= b
    ensures |a| <= |b|
    ensures |a| == |b| ==> a == b
  {
    assert |b - a| == |b| - |a|;
  }

  // A decision is commit exactly when every node answered yes, and abort
  // exactly when one answered no.
  lemma DecisionIsUnanimous(w: World, f: Name)
    requires Sane(w) && f in w.txns && w.txns[f].decided
    ensures var t := w.txns[f];
      && (t.ballot.canCommit <==> t.yes == Nodes(t))
      && (!t.ballot.canCommit <==> t.no != {})
  {
    hide Tally;
    hide NodesOf;
    VotesBounded(w, f);
    var t := w.txns[f];
    assert CountsOk(w.net, f, t, w.lost);
    if t.no == {} { assert t.yes == Nodes(t); }
  }

  /** Two decisions about one collage, whenever they are in flight, agree. */
  lemma DecisionsAgree(w: World, before: seq<Step>, after: seq<Step>, p: Packet, q: Packet)
    requires Initial(w) && Legal(w, before) && Legal(Run(w, before), after)
    requires p in Run(w, before).net && p.msg.kind == DECISION
    requires q in Run(Run(w, before), after).net && q.msg.kind == DECISION
    requires p.msg.filename == q.msg.filename
    ensures p.msg.vote == q.msg.vote
    ensures p.msg.sources == q.msg.sources
  {
    hide Next;
    var mid := Run(w, before);
    InitialSane(w);
    RunsAreSane(w, before);
    RunsAreSane(mid, after);
    RunsGrow(mid, after);
    assert PacketOk(mid, p) && PacketOk(Run(mid, after), q);
  }

  // ---- collages

  /** The collages on the server are those of the committed transactions. */
  ghost predicate CollagesOk(w: World) {
    && (forall f :: f in w.collages <==> f in w.txns && w.txns[f].decided && w.txns[f].ballot.canCommit)
    && (forall f :: f in w.collages ==> w.collages[f] == w.txns[f].img)
  }

  lemma NextCollages(w: World, step: Step)
    requires CollagesOk(w) && Enabled(w, step)
    ensures CollagesOk(Next(w, step))
  {
    hide Deliver;
    hide Freed;
    hide Broadcast;
    hide NodesOf;
    hide ImagesOf;
    hide Matches;
    match step {
      case Begin(_, _, _) =>
      case AtNode(_, _) =>
      case AtServer(_, _) =>
      case Finish(_) =>
      case Lose(_) =>
    }
  }

  lemma {:induction false} RunsCollages(w: World, steps: seq<Step>)
    requires CollagesOk(w) && Legal(w, steps)
    ensures CollagesOk(Run(w, steps))
    decreases |steps|
  {
    hide Next;
    hide CollagesOk;
    if steps != [] {
      NextCollages(w, steps[0]);
      RunsCollages(Next(w, steps[0]), steps[1..]);
    }
  }

  /** Atomic commitment. A collage is written exactly for the transactions that
      were decided with a yes from every source node, with the image they
      proposed; an abort means that a node refused; every DECISION in flight
      says which of the two it is. */
  lemma CommitIsAtomic(w: World, steps: seq<Step>)
    requires Initial(w) && Legal(w, steps)
    ensures var e := Run(w, steps);
      && (forall f :: f in e.collages <==>
            f in e.txns && e.txns[f].decided && e.txns[f].yes == NodesOf(e.txns[f].sources))
      && (forall f :: f in e.collages ==> e.collages[f] == e.txns[f].img)
      && (forall f :: f in e.txns && e.txns[f].decided && f !in e.collages ==> e.txns[f].no != {})
      && (forall p :: p in e.net && p.msg.kind == DECISION ==>
            p.msg.filename in e.txns && e.txns[p.msg.filename].decided
            && (p.msg.vote <==> p.msg.filename in e.collages))
  {
    var e := Run(w, steps);
    InitialSane(w);
    RunsAreSane(w, steps);
    RunsCollages(w, steps);
    hide Sane;
    hide Run;
    hide NodesOf;
    forall f | f in e.txns && e.txns[f].decided
      ensures (e.txns[f].ballot.canCommit <==> e.txns[f].yes == NodesOf(e.txns[f].sources))
      ensures f !in e.collages ==> e.txns[f].no != {}
    {
      DecisionIsUnanimous(e, f);
    }
    forall p | p in e.net && p.msg.kind == DECISION
      ensures p.msg.filename in e.txns && e.txns[p.msg.filename].decided
      ensures p.msg.vote <==> p.msg.filename in e.collages
    {
      SanePacket(e, p);
    }
  }

  lemma SanePacket(w: World, p: Packet)
    requires Sane(w) && p in w.net
    ensures PacketOk(w, p)
  {
  }

  // ---- conservation of replies

  /** The replies about a collage in flight. */
  ghost function InFlight(net: multiset<Packet>, f: Name): nat {
    Tally(net, Replies(f, true)) + Tally(net, Replies(f, false))
  }

  /** The nodes that have not answered. */
  ghost function Unanswered(t: Txn): set<Name> {
    Nodes(t) - t.yes - t.no
  }

  /** Without losses each node of a transaction is asked, heard of or counted:
      one PREPARE in flight exactly for the nodes that have not answered, and
      their number, the replies in flight and the votes add up to the nodes. So
      nothing is left over when the transaction is decided. */
  lemma RepliesAreConserved(w: World, steps: seq<Step>, f: Name)
    requires Initial(w) && Legal(w, steps)
    requires f in Run(w, steps).txns && !Run(w, steps).lost
    ensures var e := Run(w, steps); var t := e.txns[f];
      && (forall n :: Tally(e.net, Prepares(f, n)) == One(n in Unanswered(t)))
      && |Unanswered(t)| + InFlight(e.net, f) + t.ballot.votes == |Nodes(t)|
      && (t.decided ==> InFlight(e.net, f) == 0 && Unanswered(t) == {} && t.ballot.votes == |Nodes(t)|)
  {
    InitialSane(w);
    RunsAreSane(w, steps);
    hide Sane;
    hide Run;
    SaneConserves(Run(w, steps), f);
  }

  lemma SaneConserves(w: World, f: Name)
    requires Sane(w) && f in w.txns && !w.lost
    ensures var t := w.txns[f];
      && (forall n :: Tally(w.net, Prepares(f, n)) == One(n in Unanswered(t)))
      && |Unanswered(t)| + InFlight(w.net, f) + t.ballot.votes == |Nodes(t)|
      && (t.decided ==> InFlight(w.net, f) == 0 && Unanswered(t) == {} && t.ballot.votes == |Nodes(t)|)
  {
    var t := w.txns[f];
    assert CountsOk(w.net, f, t, false);
    VotesBounded(w, f);
    hide Sane;
    hide Tally;
    hide NodesOf;
    forall n ensures Tally(w.net, Prepares(f, n)) == One(n in Unanswered(t)) {
      assert Within(Tally(w.net, Prepares(f, n)), One(n in Nodes(t) && n !in t.yes && n !in t.no), false);
    }
    hide PreparesOk;
    hide DecisionsOk;
    assert InFlight(w.net, f) + t.ballot.votes == |t.yes| + |t.no|;
    UnansweredSize(t);
  }

  lemma UnansweredSize(t: Txn)
    requires t.yes !! t.no && t.yes + t.no <= Nodes(t)
    ensures |Unanswered(t)| + |t.yes| + |t.no| == |Nodes(t)|
  {
    hide NodesOf;
    assert |t.yes + t.no| == |t.yes| + |t.no|;
    assert Unanswered(t) == Nodes(t) - (t.yes + t.no);
    assert |Nodes(t) - (t.yes + t.no)| == |Nodes(t)| - |t.yes + t.no|;
  }

  /** A reply sent again counts as before, for its own transaction and for every
      other; no node, vote or lock changes. */
  lemma ResendChangesNothing(w: World, f: Name, p: Packet)
    requires Enabled(w, AtServer(f, p)) && p.msg.filename != f
    ensures var w' := Next(w, AtServer(f, p));
      && w'.nodes == w.nodes && w'.txns == w.txns && w'.collages == w.collages
      && (forall probe :: Tally(w'.net, probe) == Tally(w.net, probe))
  {
    hide Tally;
    var w' := Next(w, AtServer(f, p));
    var q := Packet(SERVER, SERVER, p.msg);
    ResendStep(w, f, p);
    forall probe ensures Tally(w'.net, probe) == Tally(w.net, probe) {
      TallySwap(w.net, probe, p, q);
      assert Matches(probe, p) == Matches(probe, q) by { assert p.to == q.to; }
    }
  }
}
