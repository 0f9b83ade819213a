/** One run of startCommit in 15440-p4 Server.java. */
module Coordinator {
  import opened Options
  import opened Messages

  datatype Ballot = Ballot(votes: nat, canCommit: bool)

  /** One turn of the vote loop: a reply for this collage is counted, a message
      for another collage is sent again to the shared inbox. */
  function Hear(b: Ballot, filename: Name, p: Packet): (Ballot, multiset<Packet>) {
    if p.msg.filename != filename then (b, multiset{Packet(SERVER, SERVER, p.msg)})
    else if p.msg.kind == REPLY then (Ballot(b.votes + 1, b.canCommit && p.msg.vote), multiset{})
    else (b, multiset{})
  }

  function HearAll(b: Ballot, filename: Name, inbox: seq<Packet>): (Ballot, multiset<Packet>) {
    if inbox == [] then (b, multiset{})
    else
      var (b1, resent) := HearAll(b, filename, inbox[..|inbox| - 1]);
      var (b2, again) := Hear(b1, filename, inbox[|inbox| - 1]);
      (b2, resent + again)
  }

  /** The replies for `filename` in an inbox that carry `vote`. */
  function Cast(inbox: seq<Packet>, filename: Name, vote: bool): nat {
    if inbox == [] then 0
    else
      Cast(inbox[..|inbox| - 1], filename, vote) + One(Matches(Replies(filename, vote), inbox[|inbox| - 1]))
  }

  /** The loop counts exactly the replies for its own collage and remembers
      whether all of them were yes; everything about other collages is sent
      again. */
  lemma {:induction false} HearAllCounts(filename: Name, inbox: seq<Packet>)
    ensures var (b, resent) := HearAll(Ballot(0, true), filename, inbox);
      && b.votes == Cast(inbox, filename, true) + Cast(inbox, filename, false)
      && (b.canCommit <==> Cast(inbox, filename, false) == 0)
      && (forall p :: p in resent ==> p.from == SERVER && p.to == SERVER && p.msg.filename != filename)
      && |resent| == |inbox| - |Own(inbox, filename)|
  {
    if inbox != [] {
      HearAllCounts(filename, inbox[..|inbox| - 1]);
    }
  }

  /** How often a message is in an inbox. */
  function Copies(inbox: seq<Packet>, m: Message): nat {
    if inbox == [] then 0
    else Copies(inbox[..|inbox| - 1], m) + One(inbox[|inbox| - 1].msg == m)
  }

  /** Every message about another collage is sent again unchanged, as often as it
      came, and none about its own. */
  lemma {:induction false} ForeignAreResent(filename: Name, inbox: seq<Packet>, m: Message)
    ensures HearAll(Ballot(0, true), filename, inbox).1[Packet(SERVER, SERVER, m)] ==
      if m.filename == filename then 0 else Copies(inbox, m)
  {
    if inbox != [] {
      ForeignAreResent(filename, inbox[..|inbox| - 1], m);
    }
  }

  function Own(inbox: seq<Packet>, filename: Name): seq<Packet> {
    if inbox == [] then []
    else
      Own(inbox[..|inbox| - 1], filename) +
        if inbox[|inbox| - 1].msg.filename == filename then [inbox[|inbox| - 1]] else []
  }

  lemma HearNext(b: Ballot, filename: Name, inbox: seq<Packet>, k: nat)
    requires k < |inbox|
    ensures var (b1, resent) := HearAll(b, filename, inbox[..k]);
      var (b2, again) := Hear(b1, filename, inbox[k]);
      HearAll(b, filename, inbox[..k + 1]) == (b2, resent + again)
  {
    assert inbox[..k + 1][..k] == inbox[..k];
  }

  lemma HearNothing(b: Ballot, filename: Name, inbox: seq<Packet>)
    ensures HearAll(b, filename, inbox[..0]) == (b, multiset{})
  {
  }

  /** None of the first n messages brings the votes to the number of nodes. */
  ghost predicate StillShort(b: Ballot, filename: Name, inbox: seq<Packet>, n: nat, nodes: nat)
    requires n <= |inbox|
  {
    forall k :: 0 <= k < n ==> HearAll(b, filename, inbox[..k]).0.votes < nodes
  }

  lemma ShortNext(b: Ballot, filename: Name, inbox: seq<Packet>, n: nat, nodes: nat)
    requires n < |inbox| && StillShort(b, filename, inbox, n, nodes)
    requires HearAll(b, filename, inbox[..n]).0.votes < nodes
    ensures StillShort(b, filename, inbox, n + 1, nodes)
  {
    hide HearAll;
  }

  // One more message is one more vote at most.
  lemma NoVoteTooMany(filename: Name, inbox: seq<Packet>, taken: nat, nodes: nat)
    requires taken <= |inbox| && StillShort(Ballot(0, true), filename, inbox, taken, nodes)
    ensures HearAll(Ballot(0, true), filename, inbox[..taken]).0.votes <= nodes
  {
    if taken > 0 {
      HearNext(Ballot(0, true), filename, inbox, taken - 1);
    }
  }

  class Commit {
    const filename: Name
    const img: Image
    const sources: seq<Source>
    var nodes: set<Name>
    var votes: nat
    var canCommit: bool

    function Tallied(): Ballot
      reads this
    {
      Ballot(votes, canCommit)
    }

    constructor (filename: Name, img: Image, sources: seq<Source>)
      ensures this.filename == filename && this.img == img && this.sources == sources
      ensures nodes == NodesOf(sources) && Tallied() == Ballot(0, true)
    {
      this.filename, this.img, this.sources := filename, img, sources;
      nodes, votes, canCommit := {}, 0, true;
      new;
      var i := 0;
      while i < |sources|
        invariant i <= |sources|
        invariant nodes == NodesOf(sources[..i]) && Tallied() == Ballot(0, true)
      {
        assert sources[..i + 1] == sources[..i] + [sources[i]];
        nodes := nodes + {sources[i].node};
        i := i + 1;
      }
      assert sources[..i] == sources;
    }

    /** startCommit over the messages that come out of the inbox: it asks every
        node, takes messages until every node's vote is counted, then sends its
        decision and writes the collage if no vote was no. `taken` is where it
        stopped; the inbox may end first. */
    method StartCommit(inbox: seq<Packet>)
        returns (asked: multiset<Packet>, taken: nat, resent: multiset<Packet>, told: multiset<Packet>, collage: Option<Image>)
      requires Tallied() == Ballot(0, true)
      modifies this`votes, this`canCommit
      ensures asked == Broadcast(nodes, Message(filename, img, sources, PREPARE, false))
      ensures taken <= |inbox| && resent == HearAll(Ballot(0, true), filename, inbox[..taken]).1
      ensures var heard := inbox[..taken]; var yes, no := Cast(heard, filename, true), Cast(heard, filename, false);
        && (yes + no == |nodes| || (taken == |inbox| && yes + no < |nodes|))
        && told == (if yes + no == |nodes| then Broadcast(nodes, Message(filename, img, sources, DECISION, no == 0)) else multiset{})
        && collage == (if yes == |nodes| then Some(img) else None)
    {
      asked := SendAll(PREPARE, false);
      taken, resent := CollectVotes(inbox);
      HearAllCounts(filename, inbox[..taken]);
      NoVoteTooMany(filename, inbox, taken, |nodes|);
      told, collage := multiset{}, None;
      if votes >= |nodes| {
        told := SendAll(DECISION, canCommit);
        if canCommit { collage := Some(img); }
      }
    }

    /** Sends a PREPARE or a DECISION to every node. */
    method SendAll(kind: Kind, vote: bool) returns (sent: multiset<Packet>)
      ensures sent == Broadcast(nodes, Message(filename, img, sources, kind, vote))
    {
      sent := multiset{};
      var m := Message(filename, img, sources, kind, vote);
      var left := nodes;
      assert Broadcast({}, m) == multiset{};
      while left != {}
        invariant left <= nodes
        invariant sent == Broadcast(nodes - left, m)
        decreases left
      {
        var node :| node in left;
        BroadcastOne(nodes - (left - {node}), node, m);
        assert nodes - (left - {node}) - {node} == nodes - left;
        sent := sent + multiset{Packet(SERVER, node, m)};
        left := left - {node};
      }
      assert nodes - left == nodes;
    }

    /** The vote loop over the messages as they come out of the inbox. It stops
        at the first moment it has as many votes as nodes. */
    method CollectVotes(inbox: seq<Packet>) returns (taken: nat, resent: multiset<Packet>)
      modifies this`votes, this`canCommit
      ensures taken <= |inbox|
      ensures (Tallied(), resent) == HearAll(old(Tallied()), filename, inbox[..taken])
      ensures votes >= |nodes| || taken == |inbox|
      ensures StillShort(old(Tallied()), filename, inbox, taken, |nodes|)
    {
      taken, resent := 0, multiset{};
      HearNothing(Tallied(), filename, inbox);
      hide HearAll;
      hide Hear;
      ghost var b := Tallied();
      assert StillShort(b, filename, inbox, 0, |nodes|);
      hide StillShort;
      while votes < |nodes| && taken < |inbox|
        invariant taken <= |inbox|
        invariant (Tallied(), resent) == HearAll(b, filename, inbox[..taken])
        invariant StillShort(b, filename, inbox, taken, |nodes|)
      {
        ShortNext(b, filename, inbox, taken, |nodes|);
        HearNext(b, filename, inbox, taken);
        var again := HearOne(inbox[taken]);
        resent := resent + again;
        taken := taken + 1;
      }
    }

    /** One message taken out of the inbox. */
    method HearOne(p: Packet) returns (again: multiset<Packet>)
      modifies this`votes, this`canCommit
      ensures (Tallied(), again) == Hear(old(Tallied()), filename, p)
    {
      again := multiset{};
      if p.msg.filename == filename {
        if p.msg.kind == REPLY {
          votes := votes + 1;
          if !p.msg.vote { canCommit := false; }
        }
      } else {
        again := multiset{Packet(SERVER, SERVER, p.msg)};
      }
    }
  }
}
