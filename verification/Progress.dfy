/** The collage commit ends, and what it leaves behind. */
module Progress {
  import opened Messages
  import opened UserNode
  import opened Coordinator
  import opened CommitProtocol
  import opened CommitTheorems
  import opened Exclusion

  // ---- a measure

  /** A transaction not decided still owes each node a DECISION, and itself the
      step that sends them. */
  ghost function Owed(t: Txn): nat {
    if t.decided then 0 else |Nodes(t)| + 1
  }

  ghost function AllOwed(txns: map<Name, Txn>): nat
    decreases |txns|
  {
    if txns == map[] then 0
    else
      var f :| f in txns;
      Owed(txns[f]) + AllOwed(txns - {f})
  }

  lemma {:induction false} OwedBy(txns: map<Name, Txn>, f: Name)
    requires f in txns
    ensures AllOwed(txns) == Owed(txns[f]) + AllOwed(txns - {f})
    decreases |txns|
  {
    hide Owed;
    var g :| g in txns && AllOwed(txns) == Owed(txns[g]) + AllOwed(txns - {g});
    if g != f {
      OwedBy(txns - {g}, f);
      OwedBy(txns - {f}, g);
      assert txns - {g} - {f} == txns - {f} - {g};
    }
  }

  lemma OwedAfter(txns: map<Name, Txn>, f: Name, t: Txn)
    requires f in txns
    ensures AllOwed(txns[f := t]) == AllOwed(txns) - Owed(txns[f]) + Owed(t)
  {
    hide Owed;
    OwedBy(txns, f);
    OwedBy(txns[f := t], f);
    assert txns[f := t] - {f} == txns - {f};
  }

  /** The work in flight: a PREPARE still has to become a REPLY. */
  ghost function Traffic(net: multiset<Packet>): nat {
    2 * Tally(net, AllOf(PREPARE)) + Tally(net, AllOf(REPLY)) + Tally(net, AllOf(DECISION))
  }

  function Cost(kind: Kind): nat {
    match kind
    case PREPARE => 2
    case REPLY => 1
    case DECISION => 1
    case ACK => 0
  }

  lemma TrafficLess(net: multiset<Packet>, p: Packet)
    requires p in net
    ensures Traffic(net - multiset{p}) == Traffic(net) - Cost(p.msg.kind)
  {
    hide Tally;
    TallyRemove(net, AllOf(PREPARE), p);
    TallyRemove(net, AllOf(REPLY), p);
    TallyRemove(net, AllOf(DECISION), p);
  }

  lemma TrafficSwap(net: multiset<Packet>, p: Packet, q: Packet)
    requires p in net
    ensures Traffic(net - multiset{p} + multiset{q}) == Traffic(net) - Cost(p.msg.kind) + Cost(q.msg.kind)
  {
    TrafficLess(net - multiset{p} + multiset{q}, q);
    TrafficLess(net, p);
    assert net - multiset{p} + multiset{q} - multiset{q} == net - multiset{p};
  }

  /** The work left in a world. */
  ghost function Work(w: World): nat {
    Traffic(w.net) + AllOwed(w.txns)
  }

  /** The server takes a reply meant for another coordinator and sends it again. */
  predicate Resend(step: Step) {
    step.AtServer? && step.p.msg.filename != step.filename
  }

  lemma NodeStepWorks(w: World, p: Packet, consent: bool)
    requires Sane(w) && Enabled(w, AtNode(p, consent))
    ensures Work(Next(w, AtNode(p, consent))) == Work(w) - 1
  {
    hide Work;
    hide Next;
    NodesGetTheirs(w, p);
    SanePacket(w, p);
    if p.msg.kind == PREPARE {
      AnswerWorks(w, p, consent);
    } else {
      DecisionWorks(w, p, consent);
    }
  }

  lemma AnswerWorks(w: World, p: Packet, consent: bool)
    requires Enabled(w, AtNode(p, consent)) && p.msg.kind == PREPARE && p.msg.filename in w.txns
    ensures Work(Next(w, AtNode(p, consent))) == Work(w) - 1
  {
    hide Traffic;
    hide AllOwed;
    hide Owed;
    hide ImagesOf;
    hide Available;
    hide Next;
    PrepareStep(w, p, consent);
    var f, vote := p.msg.filename, Available(w.nodes[p.to], ImagesOf(p.msg.sources, p.to)) && consent;
    var t' := Next(w, AtNode(p, consent)).txns[f];
    OwedAfter(w.txns, f, t');
    SameOwed(w.txns[f], t');
    TrafficSwap(w.net, p, Reply(p.to, p, vote));
  }

  lemma DecisionWorks(w: World, p: Packet, consent: bool)
    requires Enabled(w, AtNode(p, consent)) && p.msg.kind == DECISION && p.msg.filename in w.txns
    ensures Work(Next(w, AtNode(p, consent))) == Work(w) - 1
  {
    hide Traffic;
    hide AllOwed;
    hide Owed;
    hide ImagesOf;
    hide Next;
    hide HeldByAnother;
    DecisionStep(w, p, consent);
    var f := p.msg.filename;
    var t' := Next(w, AtNode(p, consent)).txns[f];
    OwedAfter(w.txns, f, t');
    SameOwed(w.txns[f], t');
    TrafficLess(w.net, p);
  }

  lemma SameOwed(t: Txn, t': Txn)
    requires t'.sources == t.sources && t'.decided == t.decided
    ensures Owed(t') == Owed(t)
  {
  }

  lemma ServerStepWorks(w: World, f: Name, p: Packet)
    requires Sane(w) && Enabled(w, AtServer(f, p))
    ensures Work(Next(w, AtServer(f, p))) == Work(w) - One(p.msg.filename == f)
  {
    hide Traffic;
    hide AllOwed;
    hide Owed;
    hide NodesOf;
    if p.msg.filename != f {
      ResendStep(w, f, p);
      hide Sane;
      hide Next;
      TrafficSwap(w.net, p, Packet(SERVER, SERVER, p.msg));
    } else {
      ServerGetsReplies(w, p);
      CountStep(w, f, p);
      hide Sane;
      hide Next;
      var w' := Next(w, AtServer(f, p));
      OwedAfter(w.txns, f, w'.txns[f]);
      SameOwed(w.txns[f], w'.txns[f]);
      TrafficLess(w.net, p);
    }
  }

  lemma FinishWorks(w: World, f: Name)
    requires Enabled(w, Finish(f))
    ensures Work(Next(w, Finish(f))) == Work(w) - 1
  {
    hide Tally;
    hide AllOwed;
    hide NodesOf;
    hide Broadcast;
    var w', t := Next(w, Finish(f)), w.txns[f];
    var m := Message(f, t.img, t.sources, DECISION, t.ballot.canCommit);
    OwedAfter(w.txns, f, w'.txns[f]);
    TallyBroadcast(w.net, Nodes(t), m, AllOf(PREPARE));
    TallyBroadcast(w.net, Nodes(t), m, AllOf(REPLY));
    TallyBroadcast(w.net, Nodes(t), m, AllOf(DECISION));
    assert Reached(Nodes(t), m, AllOf(PREPARE)) == {};
    assert Reached(Nodes(t), m, AllOf(REPLY)) == {};
    assert Reached(Nodes(t), m, AllOf(DECISION)) == Nodes(t);
  }

  lemma LossWorks(w: World, p: Packet)
    requires Enabled(w, Lose(p))
    ensures Work(Next(w, Lose(p))) <= Work(w)
  {
    hide Traffic;
    hide AllOwed;
    TrafficLess(w.net, p);
  }

  /** Steps that do something: all but new requests, losses and re-sends. */
  predicate Useful(step: Step) {
    !step.Begin? && !step.Lose? && !Resend(step)
  }

  function UsefulSteps(steps: seq<Step>): nat {
    if steps == [] then 0 else One(Useful(steps[0])) + UsefulSteps(steps[1..])
  }

  predicate NoBegin(steps: seq<Step>) {
    forall s :: s in steps ==> !s.Begin?
  }

  lemma StepWorks(w: World, step: Step)
    requires Sane(w) && Enabled(w, step) && !step.Begin?
    ensures Work(Next(w, step)) <= Work(w) - One(Useful(step))
  {
    hide Work;
    hide Sane;
    hide Next;
    match step
    case AtNode(p, consent) => NodeStepWorks(w, p, consent);
    case AtServer(f, p) => ServerStepWorks(w, f, p);
    case Finish(f) => FinishWorks(w, f);
    case Lose(p) => LossWorks(w, p);
  }

  /** Termination: however messages are ordered, sent again or lost, a run
      without new requests has no more useful steps than there was work. */
  lemma {:induction false} RunsAreBounded(w: World, steps: seq<Step>)
    requires Sane(w) && Legal(w, steps) && NoBegin(steps)
    ensures UsefulSteps(steps) + Work(Run(w, steps)) <= Work(w)
    decreases |steps|
  {
    hide Work;
    hide Sane;
    hide Next;
    hide Useful;
    if steps != [] {
      NextSane(w, steps[0]);
      StepWorks(w, steps[0]);
      RunsAreBounded(Next(w, steps[0]), steps[1..]);
    }
  }

  // ---- no deadlock

  /** Nothing in flight and every commit decided. */
  ghost predicate Quiet(w: World) {
    w.net == multiset{} && forall f :: f in w.txns ==> w.txns[f].decided
  }

  lemma AReplyWaits(w: World, f: Name) returns (p: Packet)
    requires Sane(w) && !w.lost && f in w.txns && !w.txns[f].decided
    requires w.txns[f].ballot.votes < |Nodes(w.txns[f])|
    requires forall q :: q in w.net ==> q.to !in w.nodes
    ensures p in w.net && p.msg.filename == f && p.msg.kind == REPLY && p.to == SERVER
  {
    hide Tally;
    hide NodesOf;
    hide Matches;
    SaneConserves(w, f);
    var t := w.txns[f];
    if n :| n in Unanswered(t) {
      p := TallyWitness(w.net, Prepares(f, n));
      PrepareMatches(f, n, p);
      assert false;
    }
    assert Unanswered(t) == {};
    var vote := Tally(w.net, Replies(f, true)) > 0;
    p := TallyWitness(w.net, Replies(f, vote));
    ReplyMatches(f, vote, p);
    SanePacket(w, p);
  }

  lemma PrepareMatches(f: Name, n: Name, p: Packet)
    requires Matches(Prepares(f, n), p)
    ensures p.to == n
  {
  }

  lemma ReplyMatches(f: Name, vote: bool, p: Packet)
    ensures Matches(Replies(f, vote), p) <==> p.msg.kind == REPLY && p.msg.filename == f && p.msg.vote == vote
  {
  }

  /** Without losses there is a useful step until nothing is left to do. */
  lemma NoDeadlock(w: World) returns (step: Step)
    requires Sane(w) && !w.lost && !Quiet(w)
    ensures Enabled(w, step) && Useful(step) && !Next(w, step).lost
  {
    hide Sane;
    hide NodesOf;
    hide Deliver;
    hide Hear;
    if p :| p in w.net && p.to in w.nodes {
      step := AtNode(p, true);
    } else if f :| f in w.txns && !w.txns[f].decided {
      if w.txns[f].ballot.votes >= |Nodes(w.txns[f])| {
        step := Finish(f);
      } else {
        var q := AReplyWaits(w, f);
        step := AtServer(f, q);
      }
    } else {
      var p :| p in w.net;
      SanePacket(w, p);
      NothingLeft(w, p);
    }
  }

  // A decided transaction has no reply in flight.
  lemma NothingLeft(w: World, p: Packet)
    requires Sane(w) && !w.lost && p in w.net && p.msg.filename in w.txns && w.txns[p.msg.filename].decided
    ensures p.to in w.nodes
  {
    hide Tally;
    hide NodesOf;
    hide Matches;
    SanePacket(w, p);
    var f := p.msg.filename;
    SaneConserves(w, f);
    if p.msg.kind == REPLY {
      ReplyMatches(f, p.msg.vote, p);
      TallyPositive(w.net, Replies(f, p.msg.vote), p);
    }
  }

  /** So from any reachable world without losses, the useful steps in some order
      lead to a quiet one, and no more of them than there was work. */
  lemma {:induction false} CanFinish(w: World) returns (steps: seq<Step>)
    requires Sane(w) && !w.lost
    ensures Legal(w, steps) && Quiet(Run(w, steps)) && !Run(w, steps).lost
    ensures |steps| <= Work(w) && forall s :: s in steps ==> Useful(s)
    decreases Work(w)
  {
    hide Work;
    hide Sane;
    hide Next;
    hide Useful;
    hide Quiet;
    if Quiet(w) {
      steps := [];
    } else {
      var step := NoDeadlock(w);
      assert !step.Begin? by { NotBegin(step); }
      StepWorks(w, step);
      NextSane(w, step);
      var rest := CanFinish(Next(w, step));
      steps := [step] + rest;
      assert steps[1..] == rest;
    }
  }

  lemma NotBegin(step: Step)
    requires Useful(step)
    ensures !step.Begin?
  {
  }

  // ---- the outcome

  /** Some written collage uses the image. */
  ghost predicate InSomeCollage(w: World, n: Name, img: Name) {
    exists f :: f in w.collages && f in w.txns && img in ImagesOf(w.txns[f].sources, n)
  }

  /** When a run without losses has come to rest, no image is locked; a node is
      left with the images it began with that no written collage uses; the
      collages are those every source node agreed to. */
  lemma Outcome(w: World, steps: seq<Step>)
    requires Initial(w) && Legal(w, steps) && Quiet(Run(w, steps)) && !Run(w, steps).lost
    ensures var e := Run(w, steps);
      && (forall n :: n in w.nodes ==> n in e.nodes && e.nodes[n].locked == {})
      && (forall n, img :: n in w.nodes ==>
            (img in e.nodes[n].files <==> img in w.nodes[n].files && !InSomeCollage(e, n, img)))
      && (forall f :: f in e.txns ==> (f in e.collages <==> e.txns[f].yes == NodesOf(e.txns[f].sources)))
  {
    var e := Run(w, steps);
    RunsAreExclusive(w, steps);
    CommitIsAtomic(w, steps);
    RunsCollagesFromStart(w, steps);
    hide Run;
    hide Initial;
    hide Legal;
    forall f | f in e.txns ensures e.txns[f].told == Nodes(e.txns[f]) {
      EveryoneTold(e, f);
    }
    hide Sane;
    hide NodesOf;
    forall n, img | n in e.nodes ensures img !in e.nodes[n].locked {
      NothingHeld(e, n, img);
    }
    forall n, img ensures SomeoneUsed(e, n, img) == InSomeCollage(e, n, img) {
      UsedAtRest(e, n, img);
    }
  }

  lemma EveryoneTold(w: World, f: Name)
    requires Sane(w) && Quiet(w) && !w.lost && f in w.txns
    ensures w.txns[f].told == Nodes(w.txns[f])
  {
    hide NodesOf;
    var t := w.txns[f];
    assert CountsOk(w.net, f, t, false);
    forall n | n in Nodes(t) ensures n in t.told {
      assert Within(Tally(w.net, Decisions(f, n)), One(n in Nodes(t) && t.decided && n !in t.told), false);
    }
  }

  lemma NothingHeld(w: World, n: Name, img: Name)
    requires LocksOk(w) && n in w.nodes
    requires forall f :: f in w.txns ==> w.txns[f].told == Nodes(w.txns[f])
    ensures img !in w.nodes[n].locked
  {
    hide ImagesOf;
    hide NodesOf;
    forall f ensures !Holds(w, f, n, img) {
      if f in w.txns && img in ImagesOf(w.txns[f].sources, n) { InImages(w.txns[f].sources, n, img); }
    }
    assert !Someone(w, n, img);
  }

  lemma UsedAtRest(w: World, n: Name, img: Name)
    requires CollagesOk(w) && forall f :: f in w.txns ==> w.txns[f].told == Nodes(w.txns[f]) && w.txns[f].decided
    ensures SomeoneUsed(w, n, img) == InSomeCollage(w, n, img)
  {
    hide ImagesOf;
    hide NodesOf;
    forall f ensures Used(w, f, n, img) == (f in w.collages && f in w.txns && img in ImagesOf(w.txns[f].sources, n)) {
      if f in w.txns && img in ImagesOf(w.txns[f].sources, n) { InImages(w.txns[f].sources, n, img); }
    }
    if InSomeCollage(w, n, img) {
      var f :| f in w.collages && f in w.txns && img in ImagesOf(w.txns[f].sources, n);
      assert Used(w, f, n, img);
    }
    if SomeoneUsed(w, n, img) {
      var f :| Used(w, f, n, img);
      assert f in w.collages;
    }
  }
}
