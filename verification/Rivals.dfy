/** Three transactions that compete for one image: how it ends up in two
    written collages. */
module Rivals {
  import opened Messages
  import opened UserNode
  import opened Coordinator
  import opened CommitProtocol
  import opened CommitTheorems
  import opened Exclusion

  lemma {:induction false} LegalAppend(w: World, a: seq<Step>, b: seq<Step>)
    requires Legal(w, a) && Legal(Run(w, a), b)
    ensures Legal(w, a + b) && Run(w, a + b) == Run(Run(w, a), b)
    decreases |a|
  {
    hide Next;
    if a == [] {
      assert a + b == b;
    } else {
      assert (a + b)[0] == a[0] && (a + b)[1..] == a[1..] + b;
      LegalAppend(Next(w, a[0]), a[1..], b);
    }
  }

  lemma LegalOne(w: World, s: Step)
    requires Enabled(w, s)
    ensures Legal(w, [s]) && Run(w, [s]) == Next(w, s)
  {
    hide Next;
    hide Enabled;
    var none: seq<Step> := [];
    assert [s][1..] == none;
    assert Legal(Next(w, s), none) && Run(Next(w, s), none) == Next(w, s);
  }

  /** The message of a collage with one source. */
  function Ask(f: Name, body: Image, n: Name, img: Name, kind: Kind, vote: bool): Message {
    Message(f, body, [Source(n, img)], kind, vote)
  }

  /** f asks n for its image; n answers as it must or, where it may choose, with
      yes; the coordinator counts the answer and decides. */
  function Request(f: Name, body: Image, n: Name, img: Name, vote: bool): seq<Step> {
    [ Begin(f, body, [Source(n, img)]),
      AtNode(Packet(SERVER, n, Ask(f, body, n, img, PREPARE, false)), true),
      AtServer(f, Packet(n, SERVER, Ask(f, body, n, img, REPLY, vote))),
      Finish(f) ]
  }

  lemma OneSource(n: Name, img: Name)
    ensures NodesOf([Source(n, img)]) == {n} && ImagesOf([Source(n, img)], n) == {img}
  {
    var sources := [Source(n, img)];
    assert Source(n, img) in sources;
    assert forall s :: s in sources <==> s == Source(n, img);
  }

  /** What a request that went through leaves behind. */
  ghost predicate Asked(w: World, w': World, f: Name, body: Image, n: Name, img: Name, vote: bool)
    requires n in w.nodes
  {
    var sources := [Source(n, img)];
    && w'.txns == w.txns[f := Txn(body, sources, Ballot(1, vote), true, if vote then {n} else {},
                                  if vote then {} else {n}, One(!vote), {})]
    && w'.nodes == w.nodes[n := if vote then w.nodes[n].(locked := w.nodes[n].locked + {img}) else w.nodes[n]]
    && w'.collages == (if vote then w.collages[f := body] else w.collages)
    && w'.freed == w.freed && w'.lost == w.lost
    && Packet(SERVER, n, Ask(f, body, n, img, DECISION, vote)) in w'.net
  }

  /** Whatever else is going on, a request for an image that its node has and
      does not hold locked can go through to a written collage; for a locked
      image it ends in an abort. */
  lemma RequestEnds(w: World, f: Name, body: Image, n: Name, img: Name, vote: bool)
    requires n in w.nodes && f !in w.txns && vote == Available(w.nodes[n], {img})
    ensures Legal(w, Request(f, body, n, img, vote))
    ensures Asked(w, Run(w, Request(f, body, n, img, vote)), f, body, n, img, vote)
  {
    hide Next;
    hide Available;
    hide Asked;
    var steps := Request(f, body, n, img, vote);
    var w1 := Next(w, steps[0]);
    Asking(w, f, body, n, img);
    var w2 := Next(w1, steps[1]);
    Answering(w1, f, body, n, img, vote);
    var w3 := Next(w2, steps[2]);
    Counting(w2, f, body, n, img, vote);
    var w4 := Next(w3, steps[3]);
    Deciding(w, w3, f, body, n, img, vote);
    assert steps[1..][1..][1..][1..] == [];
    assert steps[1..][0] == steps[1] && steps[1..][1..][0] == steps[2] && steps[1..][1..][1..][0] == steps[3];
    assert Legal(w4, []);
    assert Legal(w3, steps[1..][1..][1..]) && Run(w3, steps[1..][1..][1..]) == w4;
    assert Legal(w2, steps[1..][1..]) && Run(w2, steps[1..][1..]) == w4;
    assert Legal(w1, steps[1..]) && Run(w1, steps[1..]) == w4;
  }

  lemma Asking(w: World, f: Name, body: Image, n: Name, img: Name)
    requires n in w.nodes && f !in w.txns
    ensures var s := Begin(f, body, [Source(n, img)]);
      && Enabled(w, s)
      && var w1 := Next(w, s);
      && w1 == w.(txns := w.txns[f := Txn(body, [Source(n, img)], Ballot(0, true), false, {}, {}, 0, {})], net := w1.net)
      && Packet(SERVER, n, Ask(f, body, n, img, PREPARE, false)) in w1.net
  {
    OneSource(n, img);
    InBroadcast({n}, Ask(f, body, n, img, PREPARE, false), Packet(SERVER, n, Ask(f, body, n, img, PREPARE, false)));
    hide Broadcast;
    hide NodesOf;
    hide ImagesOf;
  }

  lemma Answering(w: World, f: Name, body: Image, n: Name, img: Name, vote: bool)
    requires n in w.nodes && f in w.txns && vote == Available(w.nodes[n], {img})
    requires Packet(SERVER, n, Ask(f, body, n, img, PREPARE, false)) in w.net
    ensures var p := Packet(SERVER, n, Ask(f, body, n, img, PREPARE, false));
      && Enabled(w, AtNode(p, true))
      && var w' := Next(w, AtNode(p, true));
      && w' == w.(net := w'.net,
           nodes := w.nodes[n := if vote then w.nodes[n].(locked := w.nodes[n].locked + {img}) else w.nodes[n]],
           txns := w.txns[f := if vote then w.txns[f].(yes := w.txns[f].yes + {n}) else w.txns[f].(no := w.txns[f].no + {n})])
      && Packet(n, SERVER, Ask(f, body, n, img, REPLY, vote)) in w'.net
  {
    hide Available;
    hide Next;
    OneSource(n, img);
    PrepareStep(w, Packet(SERVER, n, Ask(f, body, n, img, PREPARE, false)), true);
    hide ImagesOf;
  }

  lemma Counting(w: World, f: Name, body: Image, n: Name, img: Name, vote: bool)
    requires f in w.txns && !w.txns[f].decided && w.txns[f].ballot == Ballot(0, true) && Nodes(w.txns[f]) == {n}
    requires Packet(n, SERVER, Ask(f, body, n, img, REPLY, vote)) in w.net
    ensures var p := Packet(n, SERVER, Ask(f, body, n, img, REPLY, vote));
      && Enabled(w, AtServer(f, p))
      && var w' := Next(w, AtServer(f, p));
      w' == w.(net := w'.net,
               txns := w.txns[f := w.txns[f].(ballot := Ballot(1, vote), noes := w.txns[f].noes + One(!vote))])
  {
    hide Next;
    CountStep(w, f, Packet(n, SERVER, Ask(f, body, n, img, REPLY, vote)));
  }

  lemma Deciding(w: World, w3: World, f: Name, body: Image, n: Name, img: Name, vote: bool)
    requires n in w.nodes
    requires w3 == w.(net := w3.net,
      nodes := w.nodes[n := if vote then w.nodes[n].(locked := w.nodes[n].locked + {img}) else w.nodes[n]],
      txns := w.txns[f := Txn(body, [Source(n, img)], Ballot(1, vote), false, if vote then {n} else {},
                              if vote then {} else {n}, One(!vote), {})])
    ensures Enabled(w3, Finish(f)) && Asked(w, Next(w3, Finish(f)), f, body, n, img, vote)
  {
    OneSource(n, img);
    InBroadcast({n}, Ask(f, body, n, img, DECISION, vote), Packet(SERVER, n, Ask(f, body, n, img, DECISION, vote)));
    hide Broadcast;
    hide NodesOf;
    hide ImagesOf;
  }

  /** The abort of f reaches n: the image is no longer locked there. */
  lemma AbortUnlocks(w: World, f: Name, body: Image, n: Name, img: Name)
    requires n in w.nodes && f in w.txns && Packet(SERVER, n, Ask(f, body, n, img, DECISION, false)) in w.net
    ensures var p := Packet(SERVER, n, Ask(f, body, n, img, DECISION, false));
      && Enabled(w, AtNode(p, true))
      && var w' := Next(w, AtNode(p, true));
      w' == w.(net := w'.net, freed := w'.freed, nodes := w.nodes[n := w.nodes[n].(locked := w.nodes[n].locked - {img})],
               txns := w.txns[f := w.txns[f].(told := w.txns[f].told + {n})])
  {
    hide Next;
    OneSource(n, img);
    DecisionStep(w, Packet(SERVER, n, Ask(f, body, n, img, DECISION, false)), true);
    hide ImagesOf;
    hide HeldByAnother;
  }

  function Contest(f: Name, g: Name, h: Name, body: Image, n: Name, img: Name): seq<Step> {
    Request(f, body, n, img, true) + Request(g, body, n, img, false)
    + [AtNode(Packet(SERVER, n, Ask(g, body, n, img, DECISION, false)), true)] + Request(h, body, n, img, true)
  }

  /** From any initial world, any node and any image of it: f is granted the
      image, g refused, g's abort unlocks it before f's decision arrives, h is
      granted it too, and both collages are written. So the hypothesis of
      NoDoubleUse cannot be dropped, nor can two transactions become three. */
  lemma ThreeRivalsShare(w: World, f: Name, g: Name, h: Name, body: Image, n: Name, img: Name)
    requires Initial(w) && f != g && g != h && f != h && n in w.nodes && img in w.nodes[n].files
    ensures var steps := Contest(f, g, h, body, n, img);
      && Legal(w, steps) && !NoForeignUnlock(w, steps)
      && var e := Run(w, steps);
      && f in e.collages && h in e.collages && f in e.txns && h in e.txns
      && Share(e.txns[f], e.txns[h], n, img)
  {
    hide Next;
    hide Enabled;
    hide Request;
    hide NodesOf;
    OneSource(n, img);
    var first, second := Request(f, body, n, img, true), Request(g, body, n, img, false);
    RequestEnds(w, f, body, n, img, true);
    var w1 := Run(w, first);
    RequestEnds(w1, g, body, n, img, false);
    LegalAppend(w, first, second);
    var w2 := Run(w1, second);
    var abort := AtNode(Packet(SERVER, n, Ask(g, body, n, img, DECISION, false)), true);
    AbortUnlocks(w2, g, body, n, img);
    LegalOne(w2, abort);
    LegalAppend(w, first + second, [abort]);
    var w3 := Run(w2, [abort]);
    var third := Request(h, body, n, img, true);
    RequestEnds(w3, h, body, n, img, true);
    LegalAppend(w, first + second + [abort], third);
    hide Legal;
    hide Run;
    var steps := Contest(f, g, h, body, n, img);
    var e := Run(w, steps);
    assert e == Run(w3, third);
    if NoForeignUnlock(w, steps) {
      NoDoubleUse(w, steps, f, h, n, img);
    }
  }
}
