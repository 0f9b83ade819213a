/** Which images are held, and when two collages can use the same one. */
module Exclusion {
  import opened Messages
  import opened UserNode
  import opened Coordinator
  import opened CommitProtocol
  import opened CommitTheorems

  /** Node n has answered f with yes for this image, and f is not known there to
      have aborted. */
  ghost predicate Claims(w: World, f: Name, n: Name, img: Name) {
    && f in w.txns && n in w.txns[f].yes && img in ImagesOf(w.txns[f].sources, n)
    && (n in w.txns[f].told ==> w.txns[f].ballot.canCommit)
  }

  /** Node n has handled the decision to commit f, which names this image. */
  ghost predicate Used(w: World, f: Name, n: Name, img: Name) {
    && f in w.txns && n in w.txns[f].told && w.txns[f].ballot.canCommit
    && img in ImagesOf(w.txns[f].sources, n)
  }

  /** Node n refused f, which names this image, and handled its decision. */
  ghost predicate RefusedAndTold(w: World, f: Name, n: Name, img: Name) {
    && f in w.txns && n in w.txns[f].no && n in w.txns[f].told
    && img in ImagesOf(w.txns[f].sources, n)
  }

  ghost predicate Someone(w: World, n: Name, img: Name) {
    exists f :: Holds(w, f, n, img)
  }

  ghost predicate SomeoneUsed(w: World, n: Name, img: Name) {
    exists f :: Used(w, f, n, img)
  }

  ghost predicate SomeoneRefused(w: World, n: Name, img: Name) {
    exists f :: RefusedAndTold(w, f, n, img)
  }

  /** A held image is locked, unless a foreign decision has freed it; a locked
      image is held. */
  ghost predicate LocksOk(w: World) {
    && (forall f, n, img :: Holds(w, f, n, img) && (n, img) !in w.freed ==> n in w.nodes && img in w.nodes[n].locked)
    && (forall n, img :: n in w.nodes && img in w.nodes[n].locked ==> Someone(w, n, img))
  }

  /** Every node has the files it started with but for the images used. */
  ghost predicate FilesOk(w0: World, w: World) {
    && w.nodes.Keys == w0.nodes.Keys
    && (forall n, img :: n in w.nodes ==>
          (img in w.nodes[n].files <==> img in w0.nodes[n].files && !SomeoneUsed(w, n, img)))
  }

  /** An image that was never freed has one claim at most. */
  ghost predicate ClaimsOk(w: World) {
    forall f, g, n, img :: Claims(w, f, n, img) && Claims(w, g, n, img) && f != g ==> (n, img) in w.freed
  }

  /** Only the decision of a refused transaction frees an image. */
  ghost predicate FreedOk(w: World) {
    forall n, img :: (n, img) in w.freed ==> SomeoneRefused(w, n, img)
  }

  ghost predicate Exclusive(w0: World, w: World) {
    LocksOk(w) && FilesOk(w0, w) && ClaimsOk(w) && FreedOk(w)
  }

  // ---- steps that no node takes part in

  /** The nodes and the part of the record they write are as before. */
  ghost predicate SameAtNodes(w: World, w': World) {
    && w'.nodes == w.nodes && w'.freed == w.freed
    && (forall f :: f in w'.txns && f !in w.txns ==> w'.txns[f].yes == {} && w'.txns[f].no == {} && w'.txns[f].told == {})
    && (forall f :: f in w.txns ==>
          && f in w'.txns
          && w'.txns[f].(img := w.txns[f].img, ballot := w.txns[f].ballot, decided := w.txns[f].decided, noes := w.txns[f].noes)
             == w.txns[f]
          && (w.txns[f].told != {} ==> w'.txns[f].ballot == w.txns[f].ballot))
  }

  lemma ServerStepsSame(w: World, step: Step)
    requires Sane(w) && Enabled(w, step) && !step.AtNode?
    ensures SameAtNodes(w, Next(w, step))
  {
    hide Tally;
    hide NodesOf;
    hide ImagesOf;
    hide Broadcast;
    hide PacketOk;
    hide PreparesOk;
    hide RepliesOk;
    hide DecisionsOk;
  }

  lemma SameKeepsExclusive(w0: World, w: World, w': World)
    requires Exclusive(w0, w) && SameAtNodes(w, w')
    ensures Exclusive(w0, w')
  {
    hide NodesOf;
    hide ImagesOf;
    forall f, n, img
      ensures Holds(w', f, n, img) == Holds(w, f, n, img)
      ensures Claims(w', f, n, img) == Claims(w, f, n, img)
      ensures Used(w', f, n, img) == Used(w, f, n, img)
      ensures RefusedAndTold(w', f, n, img) == RefusedAndTold(w, f, n, img)
    {
      if f in w.txns && w.txns[f].told == {} { assert n !in w.txns[f].told; }
    }
    forall n, img
      ensures Someone(w', n, img) == Someone(w, n, img)
      ensures SomeoneUsed(w', n, img) == SomeoneUsed(w, n, img)
      ensures SomeoneRefused(w', n, img) == SomeoneRefused(w, n, img)
    {
      if Someone(w, n, img) { var f :| Holds(w, f, n, img); assert Holds(w', f, n, img); }
      if Someone(w', n, img) { var f :| Holds(w', f, n, img); assert Holds(w, f, n, img); }
      if SomeoneUsed(w, n, img) { var f :| Used(w, f, n, img); assert Used(w', f, n, img); }
      if SomeoneUsed(w', n, img) { var f :| Used(w', f, n, img); assert Used(w, f, n, img); }
      if SomeoneRefused(w, n, img) { var f :| RefusedAndTold(w, f, n, img); assert RefusedAndTold(w', f, n, img); }
      if SomeoneRefused(w', n, img) { var f :| RefusedAndTold(w', f, n, img); assert RefusedAndTold(w, f, n, img); }
    }
    SameExclusive(w0, w, w');
  }

  lemma SameExclusive(w0: World, w: World, w': World)
    requires Exclusive(w0, w) && w'.nodes == w.nodes && w'.freed == w.freed
    requires forall f, n, img :: Holds(w', f, n, img) == Holds(w, f, n, img)
    requires forall f, n, img :: Claims(w', f, n, img) == Claims(w, f, n, img)
    requires forall n, img :: Someone(w', n, img) == Someone(w, n, img)
    requires forall n, img :: SomeoneUsed(w', n, img) == SomeoneUsed(w, n, img)
    requires forall n, img :: SomeoneRefused(w', n, img) == SomeoneRefused(w, n, img)
    ensures Exclusive(w0, w')
  {
    hide Holds;
    hide Claims;
    hide Someone;
    hide SomeoneUsed;
    hide SomeoneRefused;
  }

  // ---- a node answers

  /** What handling a PREPARE changes. */
  ghost predicate Answered(w: World, w': World, f: Name, n: Name, images: set<Name>, vote: bool) {
    && f in w.txns && n in w.nodes && n !in w.txns[f].yes && n !in w.txns[f].no && n !in w.txns[f].told
    && images == ImagesOf(w.txns[f].sources, n)
    && (vote ==> Available(w.nodes[n], images))
    && w'.freed == w.freed
    && w'.nodes == w.nodes[n := if vote then w.nodes[n].(locked := w.nodes[n].locked + images) else w.nodes[n]]
    && w'.txns == w.txns[f := if vote then w.txns[f].(yes := w.txns[f].yes + {n}) else w.txns[f].(no := w.txns[f].no + {n})]
  }

  lemma PrepareAnswers(w: World, p: Packet, consent: bool)
    requires Sane(w) && Enabled(w, AtNode(p, consent)) && p.msg.kind == PREPARE
    ensures var images := ImagesOf(p.msg.sources, p.to);
      Answered(w, Next(w, AtNode(p, consent)), p.msg.filename, p.to, images, Available(w.nodes[p.to], images) && consent)
  {
    hide Tally;
    hide NodesOf;
    hide ImagesOf;
    hide Available;
    PrepareIsDue(w, p);
    PrepareStep(w, p, consent);
    hide Next;
    hide Sane;
  }

  // A PREPARE in flight is one its node has not answered.
  lemma PrepareIsDue(w: World, p: Packet)
    requires Sane(w) && p in w.net && p.msg.kind == PREPARE
    ensures p.msg.filename in w.txns
    ensures var t, n := w.txns[p.msg.filename], p.to;
      p.msg.sources == t.sources && n !in t.yes && n !in t.no && n !in t.told
  {
    hide Tally;
    hide NodesOf;
    hide Matches;
    var f := p.msg.filename;
    assert PacketOk(w, p);
    var t := w.txns[f];
    assert CountsOk(w.net, f, t, w.lost);
    TallyPositive(w.net, Prepares(f, p.to), p) by { OwnPrepare(p); }
    assert Within(Tally(w.net, Prepares(f, p.to)), One(p.to in Nodes(t) && p.to !in t.yes && p.to !in t.no), w.lost);
    VotesBounded(w, f);
  }

  lemma OwnPrepare(p: Packet)
    requires p.msg.kind == PREPARE
    ensures Matches(Prepares(p.msg.filename, p.to), p)
  {
  }

  lemma PresentIsUnused(w0: World, w: World, n: Name, img: Name)
    requires FilesOk(w0, w) && n in w.nodes && img in w.nodes[n].files
    ensures forall f :: !Used(w, f, n, img)
  {
    assert !SomeoneUsed(w, n, img);
  }

  lemma AnswerKeepsClaims(w0: World, w: World, w': World, f: Name, n: Name, images: set<Name>, vote: bool)
    requires Exclusive(w0, w) && Answered(w, w', f, n, images, vote)
    ensures ClaimsOk(w')
  {
    hide ImagesOf;
    hide FreedOk;
    forall g, h, m, img | Claims(w', g, m, img) && Claims(w', h, m, img) && g != h
      ensures (m, img) in w'.freed
    {
      if m == n && f in {g, h} && vote {
        var other := if g == f then h else g;
        assert Claims(w, other, n, img) && img in images;
        PresentIsUnused(w0, w, n, img);
        assert Holds(w, other, n, img) by { assert !Used(w, other, n, img); }
      } else {
        assert Claims(w, g, m, img) && Claims(w, h, m, img);
      }
    }
  }

  lemma AnswerKeepsLocks(w0: World, w: World, w': World, f: Name, n: Name, images: set<Name>, vote: bool)
    requires Exclusive(w0, w) && Answered(w, w', f, n, images, vote)
    ensures LocksOk(w')
  {
    hide ImagesOf;
    hide FreedOk;
    hide ClaimsOk;
    hide FilesOk;
    forall g, m, img | Holds(w', g, m, img) && (m, img) !in w'.freed ensures m in w'.nodes && img in w'.nodes[m].locked {
      if !(g == f && m == n) { assert Holds(w, g, m, img); }
    }
    forall m, img | m in w'.nodes && img in w'.nodes[m].locked ensures Someone(w', m, img) {
      if img in w.nodes[m].locked {
        var g :| Holds(w, g, m, img);
        assert Holds(w', g, m, img);
      } else {
        assert Holds(w', f, m, img);
      }
    }
  }

  lemma AnswerKeepsRest(w0: World, w: World, w': World, f: Name, n: Name, images: set<Name>, vote: bool)
    requires Exclusive(w0, w) && Answered(w, w', f, n, images, vote)
    ensures FilesOk(w0, w') && FreedOk(w')
  {
    hide ImagesOf;
    hide LocksOk;
    hide ClaimsOk;
    forall m, img ensures SomeoneUsed(w', m, img) == SomeoneUsed(w, m, img) {
      if SomeoneUsed(w, m, img) { var g :| Used(w, g, m, img); assert Used(w', g, m, img); }
      if SomeoneUsed(w', m, img) { var g :| Used(w', g, m, img); assert Used(w, g, m, img); }
    }
    forall m, img | (m, img) in w'.freed ensures SomeoneRefused(w', m, img) {
      var g :| RefusedAndTold(w, g, m, img);
      assert RefusedAndTold(w', g, m, img);
    }
  }

  // ---- a node is told

  /** What handling a DECISION changes. */
  ghost predicate Told(w: World, w': World, f: Name, n: Name, images: set<Name>, vote: bool) {
    && f in w.txns && n in w.nodes && n !in w.txns[f].told
    && (n in w.txns[f].yes || n in w.txns[f].no)
    && w.txns[f].ballot.canCommit == vote && (vote ==> n in w.txns[f].yes)
    && images == ImagesOf(w.txns[f].sources, n)
    && w'.freed == w.freed + (set img | img in images && HeldByAnother(w, f, n, img) :: (n, img))
    && w'.nodes == w.nodes[n := NodeState(if vote then w.nodes[n].files - images else w.nodes[n].files,
                                          w.nodes[n].locked - images)]
    && w'.txns == w.txns[f := w.txns[f].(told := w.txns[f].told + {n})]
  }

  lemma DecisionTells(w: World, p: Packet, consent: bool)
    requires Sane(w) && Enabled(w, AtNode(p, consent)) && p.msg.kind == DECISION
    ensures Told(w, Next(w, AtNode(p, consent)), p.msg.filename, p.to, ImagesOf(p.msg.sources, p.to), p.msg.vote)
  {
    hide Tally;
    hide NodesOf;
    hide ImagesOf;
    hide HeldByAnother;
    DecisionIsDue(w, p);
    DecisionStep(w, p, consent);
    hide Next;
    hide Sane;
  }

  // A DECISION in flight is the one its node has not handled.
  lemma DecisionIsDue(w: World, p: Packet)
    requires Sane(w) && p in w.net && p.msg.kind == DECISION
    ensures p.msg.filename in w.txns
    ensures var t, n := w.txns[p.msg.filename], p.to;
      && p.msg.sources == t.sources && n !in t.told && (n in t.yes || n in t.no)
      && t.ballot.canCommit == p.msg.vote && (p.msg.vote ==> n in t.yes)
  {
    hide Tally;
    hide NodesOf;
    hide Matches;
    var f := p.msg.filename;
    assert PacketOk(w, p);
    var t := w.txns[f];
    assert CountsOk(w.net, f, t, w.lost);
    TallyPositive(w.net, Decisions(f, p.to), p) by { OwnDecision(p); }
    assert Within(Tally(w.net, Decisions(f, p.to)), One(p.to in Nodes(t) && t.decided && p.to !in t.told), w.lost);
    VotesBounded(w, f);
    DecisionIsUnanimous(w, f);
  }

  lemma OwnDecision(p: Packet)
    requires p.msg.kind == DECISION
    ensures Matches(Decisions(p.msg.filename, p.to), p)
  {
  }

  lemma ToldKeepsLocks(w0: World, w: World, w': World, f: Name, n: Name, images: set<Name>, vote: bool)
    requires Exclusive(w0, w) && Told(w, w', f, n, images, vote)
    ensures LocksOk(w')
  {
    hide ImagesOf;
    hide FreedOk;
    hide ClaimsOk;
    hide FilesOk;
    forall g, m, img | Holds(w', g, m, img) && (m, img) !in w'.freed ensures m in w'.nodes && img in w'.nodes[m].locked {
      assert Holds(w, g, m, img);
      assert g == f || HeldByAnother(w, f, m, img);
    }
    forall m, img | m in w'.nodes && img in w'.nodes[m].locked ensures Someone(w', m, img) {
      var g :| Holds(w, g, m, img);
      assert Holds(w', g, m, img);
    }
  }

  lemma ToldKeepsFiles(w0: World, w: World, w': World, f: Name, n: Name, images: set<Name>, vote: bool)
    requires Exclusive(w0, w) && Told(w, w', f, n, images, vote)
    ensures FilesOk(w0, w')
  {
    hide ImagesOf;
    hide FreedOk;
    hide ClaimsOk;
    hide LocksOk;
    hide HeldByAnother;
    forall m, img ensures SomeoneUsed(w', m, img) == (SomeoneUsed(w, m, img) || (vote && m == n && img in images)) {
      if SomeoneUsed(w, m, img) { var g :| Used(w, g, m, img); assert Used(w', g, m, img); }
      if vote && m == n && img in images { assert Used(w', f, m, img); }
      if SomeoneUsed(w', m, img) {
        var g :| Used(w', g, m, img);
        if g != f || m != n { assert Used(w, g, m, img); }
      }
    }
    hide SomeoneUsed;
  }

  // While another transaction holds an image never freed, its node has not
  // answered yes for it and not been told.
  lemma HeldByAnotherIsRefused(w: World, f: Name, n: Name, img: Name)
    requires ClaimsOk(w) && f in w.txns && n !in w.txns[f].told && img in ImagesOf(w.txns[f].sources, n)
    requires HeldByAnother(w, f, n, img) && (n, img) !in w.freed
    ensures n !in w.txns[f].yes
  {
    hide ImagesOf;
    var g :| g != f && Holds(w, g, n, img);
    assert Claims(w, g, n, img);
    assert n in w.txns[f].yes ==> Claims(w, f, n, img);
  }

  lemma ToldKeepsClaims(w0: World, w: World, w': World, f: Name, n: Name, images: set<Name>, vote: bool)
    requires Exclusive(w0, w) && Told(w, w', f, n, images, vote)
    ensures ClaimsOk(w') && FreedOk(w')
  {
    hide ImagesOf;
    hide LocksOk;
    hide FilesOk;
    forall g, h, m, img | Claims(w', g, m, img) && Claims(w', h, m, img) && g != h ensures (m, img) in w'.freed {
      assert Claims(w, g, m, img) && Claims(w, h, m, img);
    }
    forall m, img | (m, img) in w'.freed ensures SomeoneRefused(w', m, img) {
      if (m, img) in w.freed {
        var g :| RefusedAndTold(w, g, m, img);
        assert RefusedAndTold(w', g, m, img);
      } else {
        assert m == n && img in images && HeldByAnother(w, f, n, img);
        HeldByAnotherIsRefused(w, f, n, img);
        assert RefusedAndTold(w', f, n, img);
      }
    }
  }

  // ---- every run

  lemma NextExclusive(w0: World, w: World, step: Step)
    requires Sane(w) && Exclusive(w0, w) && Enabled(w, step)
    ensures Exclusive(w0, Next(w, step))
  {
    hide Sane;
    hide Next;
    hide Deliver;
    hide Available;
    hide ImagesOf;
    var w' := Next(w, step);
    if step.AtNode? {
      var p := step.p;
      NodesGetTheirs(w, p);
      var images := ImagesOf(p.msg.sources, p.to);
      if p.msg.kind == PREPARE {
        var vote := Available(w.nodes[p.to], images) && step.consent;
        PrepareAnswers(w, p, step.consent);
        hide Answered;
        AnswerKeepsClaims(w0, w, w', p.msg.filename, p.to, images, vote);
        AnswerKeepsLocks(w0, w, w', p.msg.filename, p.to, images, vote);
        AnswerKeepsRest(w0, w, w', p.msg.filename, p.to, images, vote);
      } else {
        DecisionTells(w, p, step.consent);
        hide Told;
        ToldKeepsClaims(w0, w, w', p.msg.filename, p.to, images, p.msg.vote);
        ToldKeepsLocks(w0, w, w', p.msg.filename, p.to, images, p.msg.vote);
        ToldKeepsFiles(w0, w, w', p.msg.filename, p.to, images, p.msg.vote);
      }
    } else {
      ServerStepsSame(w, step);
      SameKeepsExclusive(w0, w, w');
    }
  }

  // No reply is addressed to a node.
  lemma NodesGetTheirs(w: World, p: Packet)
    requires Sane(w) && p in w.net && p.to in w.nodes
    ensures p.msg.kind == PREPARE || p.msg.kind == DECISION
  {
    assert PacketOk(w, p);
  }

  lemma {:induction false} RunsKeepExclusive(w0: World, w: World, steps: seq<Step>)
    requires Sane(w) && Exclusive(w0, w) && Legal(w, steps)
    ensures Sane(Run(w, steps)) && Exclusive(w0, Run(w, steps))
    decreases |steps|
  {
    hide Sane;
    hide Next;
    hide Exclusive;
    if steps != [] {
      NextSane(w, steps[0]);
      NextExclusive(w0, w, steps[0]);
      RunsKeepExclusive(w0, Next(w, steps[0]), steps[1..]);
    }
  }

  lemma RunsAreExclusive(w: World, steps: seq<Step>)
    requires Initial(w) && Legal(w, steps)
    ensures Sane(Run(w, steps)) && Exclusive(w, Run(w, steps))
  {
    InitialSane(w);
    assert Exclusive(w, w);
    RunsKeepExclusive(w, w, steps);
  }

  // ---- a yes needs the images

  /** Whoever answered yes had the images to begin with. */
  ghost predicate YesHadImages(w0: World, w: World) {
    forall f, n :: f in w.txns && n in w.txns[f].yes ==>
      n in w0.nodes && ImagesOf(w.txns[f].sources, n) <= w0.nodes[n].files
  }

  lemma NextHadImages(w0: World, w: World, step: Step)
    requires Sane(w) && FilesOk(w0, w) && YesHadImages(w0, w) && Enabled(w, step)
    ensures YesHadImages(w0, Next(w, step))
  {
    hide Sane;
    hide Next;
    hide ImagesOf;
    hide SomeoneUsed;
    var w' := Next(w, step);
    if step.AtNode? {
      var p := step.p;
      NodesGetTheirs(w, p);
      if p.msg.kind == PREPARE {
        PrepareAnswers(w, p, step.consent);
      } else {
        DecisionTells(w, p, step.consent);
      }
    } else {
      ServerStepsSame(w, step);
    }
  }

  lemma {:induction false} RunsHadImages(w0: World, w: World, steps: seq<Step>)
    requires Sane(w) && Exclusive(w0, w) && YesHadImages(w0, w) && Legal(w, steps)
    ensures YesHadImages(w0, Run(w, steps))
    decreases |steps|
  {
    hide Sane;
    hide Next;
    hide LocksOk;
    hide FilesOk;
    hide ClaimsOk;
    hide FreedOk;
    hide YesHadImages;
    if steps != [] {
      NextSane(w, steps[0]);
      NextExclusive(w0, w, steps[0]);
      NextHadImages(w0, w, steps[0]);
      RunsHadImages(w0, Next(w, steps[0]), steps[1..]);
    }
  }

  /** In every run the sources of a written collage were images of their nodes when
      the run began. */
  lemma CollagesHadTheirImages(w: World, steps: seq<Step>, f: Name, n: Name, img: Name)
    requires Initial(w) && Legal(w, steps)
    requires f in Run(w, steps).collages && f in Run(w, steps).txns && img in ImagesOf(Run(w, steps).txns[f].sources, n)
    ensures n in w.nodes && img in w.nodes[n].files
  {
    InitialSane(w);
    assert Exclusive(w, w) && YesHadImages(w, w);
    RunsHadImages(w, w, steps);
    CommittedClaims(w, steps, f, n, img);
    hide Run;
    hide ImagesOf;
  }

  // ---- no image is used twice

  /** An image of node n is a source of both collages. */
  predicate Share(t: Txn, u: Txn, n: Name, img: Name) {
    img in ImagesOf(t.sources, n) && img in ImagesOf(u.sources, n)
  }

  /** In every run: when two written collages share an image, its node had
      answered no to a third transaction that names the image, and handled that
      transaction's decision. */
  lemma DoubleUseNeedsAThird(w: World, steps: seq<Step>, f: Name, g: Name, n: Name, img: Name)
    requires Initial(w) && Legal(w, steps)
    requires var e := Run(w, steps);
      f in e.collages && g in e.collages && f != g && f in e.txns && g in e.txns && Share(e.txns[f], e.txns[g], n, img)
    ensures var e := Run(w, steps);
      && (n, img) in e.freed
      && exists h :: h != f && h != g && RefusedAndTold(e, h, n, img)
  {
    var e := Run(w, steps);
    RunsAreExclusive(w, steps);
    hide Run;
    hide Sane;
    hide Legal;
    hide Initial;
    hide LocksOk;
    hide FilesOk;
    hide ImagesOf;
    hide NodesOf;
    hide Matches;
    CommittedClaims(w, steps, f, n, img);
    CommittedClaims(w, steps, g, n, img);
    assert (n, img) in e.freed;
    assert SomeoneRefused(e, n, img);
  }

  lemma CommittedClaims(w: World, steps: seq<Step>, f: Name, n: Name, img: Name)
    requires Initial(w) && Legal(w, steps)
    requires var e := Run(w, steps); f in e.collages && f in e.txns && img in ImagesOf(e.txns[f].sources, n)
    ensures Claims(Run(w, steps), f, n, img)
    ensures !RefusedAndTold(Run(w, steps), f, n, img)
  {
    var e := Run(w, steps);
    InitialSane(w);
    RunsAreSane(w, steps);
    RunsCollagesFromStart(w, steps);
    hide Run;
    hide Legal;
    hide ImagesOf;
    InImages(e.txns[f].sources, n, img);
    DecisionIsUnanimous(e, f);
    assert CountsOk(e.net, f, e.txns[f], e.lost);
    assert n in e.txns[f].yes;
  }

  lemma RunsCollagesFromStart(w: World, steps: seq<Step>)
    requires Initial(w) && Legal(w, steps)
    ensures CollagesOk(Run(w, steps))
  {
    RunsCollages(w, steps);
  }

  lemma InImages(sources: seq<Source>, n: Name, img: Name)
    requires img in ImagesOf(sources, n)
    ensures n in NodesOf(sources)
  {
    var s :| s in sources && s.node == n && s.img == img;
  }

  /** No node handles the decision of a transaction it refused while another
      transaction holds an image of it. */
  ghost predicate NoForeignUnlock(w: World, steps: seq<Step>)
    requires Legal(w, steps)
    decreases |steps|
  {
    steps != [] ==>
      && (steps[0].AtNode? && steps[0].p.msg.kind == DECISION && steps[0].p.msg.filename in w.txns
            && steps[0].p.to in w.txns[steps[0].p.msg.filename].no ==>
          forall img :: img in ImagesOf(steps[0].p.msg.sources, steps[0].p.to) ==>
            !HeldByAnother(w, steps[0].p.msg.filename, steps[0].p.to, img))
      && NoForeignUnlock(Next(w, steps[0]), steps[1..])
  }

  lemma NextFreesNothing(w0: World, w: World, step: Step)
    requires Sane(w) && Exclusive(w0, w) && Enabled(w, step) && w.freed == {} && Legal(w, [step])
    requires NoForeignUnlock(w, [step])
    ensures Next(w, step).freed == {}
  {
    hide Sane;
    hide Deliver;
    hide Available;
    hide ImagesOf;
    if step.AtNode? && step.p.msg.kind == DECISION {
      var p := step.p;
      DecisionTells(w, p, step.consent);
      var f := p.msg.filename;
      forall img | img in ImagesOf(p.msg.sources, p.to) ensures !HeldByAnother(w, f, p.to, img) {
        if p.to in w.txns[f].yes && HeldByAnother(w, f, p.to, img) {
          HeldByAnotherIsRefused(w, f, p.to, img);
        }
      }
    }
  }

  lemma {:induction false} RunsFreeNothing(w0: World, w: World, steps: seq<Step>)
    requires Sane(w) && Exclusive(w0, w) && Legal(w, steps) && w.freed == {} && NoForeignUnlock(w, steps)
    ensures Run(w, steps).freed == {}
    decreases |steps|
  {
    hide Sane;
    hide Next;
    hide Exclusive;
    if steps != [] {
      var w' := Next(w, steps[0]);
      assert Legal(w', []) && NoForeignUnlock(w', []);
      assert NoForeignUnlock(w, [steps[0]]);
      NextFreesNothing(w0, w, steps[0]);
      NextSane(w, steps[0]);
      NextExclusive(w0, w, steps[0]);
      RunsFreeNothing(w0, w', steps[1..]);
    }
  }

  /** Without such a decision no image is ever in two written collages, and every
      image a transaction still holds is locked. */
  lemma NoDoubleUse(w: World, steps: seq<Step>, f: Name, g: Name, n: Name, img: Name)
    requires Initial(w) && Legal(w, steps) && NoForeignUnlock(w, steps)
    requires f in Run(w, steps).collages && g in Run(w, steps).collages && f != g
    ensures f in Run(w, steps).txns && g in Run(w, steps).txns
    ensures !Share(Run(w, steps).txns[f], Run(w, steps).txns[g], n, img)
  {
    InitialSane(w);
    assert Exclusive(w, w);
    RunsFreeNothing(w, w, steps);
    RunsCollagesFromStart(w, steps);
    if Share(Run(w, steps).txns[f], Run(w, steps).txns[g], n, img) {
      DoubleUseNeedsAThird(w, steps, f, g, n, img);
    }
  }

  /** With no third transaction on the image the same holds in every run. */
  lemma TwoNeverShare(w: World, steps: seq<Step>, f: Name, g: Name, n: Name, img: Name)
    requires Initial(w) && Legal(w, steps)
    requires forall h :: h in Run(w, steps).txns && h != f && h != g ==>
      img !in ImagesOf(Run(w, steps).txns[h].sources, n)
    requires f in Run(w, steps).collages && g in Run(w, steps).collages && f != g
    ensures f in Run(w, steps).txns && g in Run(w, steps).txns
    ensures !Share(Run(w, steps).txns[f], Run(w, steps).txns[g], n, img)
  {
    RunsCollagesFromStart(w, steps);
    if Share(Run(w, steps).txns[f], Run(w, steps).txns[g], n, img) {
      DoubleUseNeedsAThird(w, steps, f, g, n, img);
    }
  }

  // ---- which decisions are safe

  /** Every image held is locked. */
  ghost predicate AllHeldLocked(w: World) {
    forall f, n, img :: Holds(w, f, n, img) ==> n in w.nodes && img in w.nodes[n].locked
  }

  /** A decision keeps every held image locked exactly when no other transaction
      holds an image it names at that node. */
  lemma DecisionIsSafeIff(w: World, p: Packet, consent: bool)
    requires Sane(w) && AllHeldLocked(w) && Enabled(w, AtNode(p, consent)) && p.msg.kind == DECISION
    ensures AllHeldLocked(Next(w, AtNode(p, consent))) <==>
      forall img :: img in ImagesOf(p.msg.sources, p.to) ==> !HeldByAnother(w, p.msg.filename, p.to, img)
  {
    hide Sane;
    hide ImagesOf;
    DecisionTells(w, p, consent);
    hide Next;
    var w', f, n, images := Next(w, AtNode(p, consent)), p.msg.filename, p.to, ImagesOf(p.msg.sources, p.to);
    if img :| img in images && HeldByAnother(w, f, n, img) {
      var g :| g != f && Holds(w, g, n, img);
      assert Holds(w', g, n, img);
    } else {
      forall g, m, img | Holds(w', g, m, img) ensures m in w'.nodes && img in w'.nodes[m].locked {
        assert Holds(w, g, m, img);
        assert g == f || HeldByAnother(w, f, m, img);
      }
    }
  }

  /** Every image held is locked, from here on to the end of the run. */
  ghost predicate AlwaysHeldLocked(w: World, steps: seq<Step>)
    requires Legal(w, steps)
    decreases |steps|
  {
    AllHeldLocked(w) && (steps != [] ==> AlwaysHeldLocked(Next(w, steps[0]), steps[1..]))
  }

  /** The hypothesis of NoDoubleUse is exact for the locks: over a run every held
      image is locked at every point if and only if no node handles the decision
      of a transaction it refused while another holds an image of it. */
  lemma HeldLockedIff(w: World, steps: seq<Step>)
    requires Initial(w) && Legal(w, steps)
    ensures AlwaysHeldLocked(w, steps) <==> NoForeignUnlock(w, steps)
  {
    InitialSane(w);
    assert Exclusive(w, w);
    HeldLockedFrom(w, w, steps);
  }

  lemma {:induction false} HeldLockedFrom(w0: World, w: World, steps: seq<Step>)
    requires Sane(w) && Exclusive(w0, w) && Legal(w, steps) && w.freed == {}
    ensures AlwaysHeldLocked(w, steps) <==> NoForeignUnlock(w, steps)
    decreases |steps|
  {
    assert AllHeldLocked(w) by { assert LocksOk(w); }
    if steps != [] {
      var s, w' := steps[0], Next(w, steps[0]);
      FirstStepAlone(w, steps);
      NextSane(w, s);
      NextExclusive(w0, w, s);
      hide Next;
      hide AllHeldLocked;
      hide Exclusive;
      if NoForeignUnlock(w, [s]) {
        NextFreesNothing(w0, w, s);
        hide Sane;
        HeldLockedFrom(w0, w', steps[1..]);
      } else {
        ForeignUnlock(w, s);
        NotLockedAnyMore(w', steps[1..]);
      }
    }
  }

  lemma FirstStepAlone(w: World, steps: seq<Step>)
    requires steps != [] && Legal(w, steps)
    ensures Legal(w, [steps[0]])
    ensures NoForeignUnlock(w, steps) <==> NoForeignUnlock(w, [steps[0]]) && NoForeignUnlock(Next(w, steps[0]), steps[1..])
  {
    hide Next;
    hide Enabled;
    hide HeldByAnother;
    hide ImagesOf;
    var none: seq<Step> := [];
    assert [steps[0]][1..] == none;
    assert Legal(Next(w, steps[0]), none) && NoForeignUnlock(Next(w, steps[0]), none);
  }

  lemma ForeignUnlock(w: World, s: Step)
    requires Sane(w) && AllHeldLocked(w) && Legal(w, [s]) && !NoForeignUnlock(w, [s])
    ensures !AllHeldLocked(Next(w, s))
  {
    hide Sane;
    hide Next;
    hide AllHeldLocked;
    hide HeldByAnother;
    hide ImagesOf;
    var none: seq<Step> := [];
    assert [s][1..] == none && NoForeignUnlock(Next(w, s), none);
    DecisionIsSafeIff(w, s.p, s.consent);
  }

  lemma NotLockedAnyMore(w: World, steps: seq<Step>)
    requires Legal(w, steps) && !AllHeldLocked(w)
    ensures !AlwaysHeldLocked(w, steps)
  {
  }
}
