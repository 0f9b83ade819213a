/** The participant of 15440-p4 UserNode.java. */
module UserNode {
  import opened Messages

  /** The images in a node's directory and the ones it has locked. */
  datatype NodeState = NodeState(files: set<Name>, locked: set<Name>)

  /** The node still has every image and none is locked. */
  predicate Available(st: NodeState, images: set<Name>) {
    images <= st.files && images !! st.locked
  }

  function Reply(id: Name, p: Packet, vote: bool): Packet {
    Packet(id, p.from, Message(p.msg.filename, p.msg.img, p.msg.sources, REPLY, vote))
  }

  /** deliverMessage: the new state and what is sent. `consent` is the answer the
      user gives if asked. */
  function Deliver(st: NodeState, id: Name, p: Packet, consent: bool): (NodeState, multiset<Packet>) {
    var images := ImagesOf(p.msg.sources, id);
    match p.msg.kind
    case PREPARE =>
      var vote := Available(st, images) && consent;
      (if vote then st.(locked := st.locked + images) else st, multiset{Reply(id, p, vote)})
    case DECISION =>
      (NodeState(if p.msg.vote then st.files - images else st.files, st.locked - images), multiset{})
    case _ => (st, multiset{})
  }

  /** What a node answers and does: a PREPARE is answered to its sender, yes if and
      only if its images are there and free and the user consents, and then they are
      locked; a DECISION is not answered, deletes its images if it is to commit, and
      unlocks them; nothing else has an effect. */
  lemma DeliverReplies(st: NodeState, id: Name, p: Packet, consent: bool)
    ensures var (st', sent) := Deliver(st, id, p, consent); var m, images := p.msg, ImagesOf(p.msg.sources, id);
      && (m.kind == PREPARE ==>
            && st'.files == st.files
            && (sent == multiset{Reply(id, p, true)} || sent == multiset{Reply(id, p, false)})
            && (sent == multiset{Reply(id, p, true)} <==>
                  consent && forall i :: i in images ==> i in st.files && i !in st.locked)
            && st'.locked == (if sent == multiset{Reply(id, p, true)} then st.locked + images else st.locked))
      && (m.kind == DECISION ==>
            && sent == multiset{}
            && (forall i :: i in st'.files <==> i in st.files && !(m.vote && i in images))
            && (forall i :: i in st'.locked <==> i in st.locked && i !in images))
      && (m.kind == REPLY || m.kind == ACK ==> st' == st && sent == multiset{})
  {
    assert Reply(id, p, true) != Reply(id, p, false);
    assert Reply(id, p, true) in multiset{Reply(id, p, true)} && Reply(id, p, true) !in multiset{Reply(id, p, false)};
  }

  /** A reply goes back to the sender and repeats what was asked. */
  lemma ReplyRepeats(id: Name, p: Packet, vote: bool)
    ensures var q := Reply(id, p, vote);
      && q.from == id && q.to == p.from && q.msg.kind == REPLY && q.msg.vote == vote
      && q.msg.filename == p.msg.filename && q.msg.img == p.msg.img && q.msg.sources == p.msg.sources
  {
  }

  lemma ImagesStep(sources: seq<Source>, i: nat, id: Name)
    requires i < |sources|
    ensures ImagesOf(sources[..i + 1], id) ==
      ImagesOf(sources[..i], id) + if sources[i].node == id then {sources[i].img} else {}
  {
    assert sources[..i + 1] == sources[..i] + [sources[i]];
  }

  class Node {
    const myId: Name
    var files: set<Name>
    var lockedImgs: set<Name>

    function State(): NodeState
      reads this
    {
      NodeState(files, lockedImgs)
    }

    constructor (id: Name, images: set<Name>)
      ensures myId == id && State() == NodeState(images, {})
    {
      myId := id;
      files, lockedImgs := images, {};
    }

    method DeliverMessage(p: Packet, consent: bool) returns (sent: multiset<Packet>)
      modifies this
      ensures (State(), sent) == Deliver(old(State()), myId, p, consent)
    {
      sent := multiset{};
      match p.msg.kind
      case PREPARE =>
        var vote := Vote(p, consent);
        sent := multiset{Packet(myId, p.from, Message(p.msg.filename, p.msg.img, p.msg.sources, REPLY, vote))};
      case DECISION =>
        ApplyDecision(p.msg);
      case _ =>
    }

    method Vote(p: Packet, consent: bool) returns (voteCommit: bool)
      modifies this`lockedImgs
      ensures voteCommit == (Available(old(State()), ImagesOf(p.msg.sources, myId)) && consent)
      ensures lockedImgs == if voteCommit then old(lockedImgs) + ImagesOf(p.msg.sources, myId) else old(lockedImgs)
    {
      voteCommit := true;
      var images: seq<Name> := [];
      var i := 0;
      while i < |p.msg.sources|
        invariant i <= |p.msg.sources| && lockedImgs == old(lockedImgs)
        invariant (set x | x in images) == ImagesOf(p.msg.sources[..i], myId)
        invariant voteCommit == Available(State(), ImagesOf(p.msg.sources[..i], myId))
      {
        var source := p.msg.sources[i];
        ImagesStep(p.msg.sources, i, myId);
        if source.node == myId {
          images := images + [source.img];
          if source.img in lockedImgs {
            voteCommit := false;
          }
          if source.img !in files {
            voteCommit := false;
          }
        }
        i := i + 1;
      }
      assert p.msg.sources[..i] == p.msg.sources;
      if voteCommit {
        if consent {
          Lock(images);
        } else {
          voteCommit := false;
        }
      }
    }

    method Lock(images: seq<Name>)
      modifies this`lockedImgs
      ensures lockedImgs == old(lockedImgs) + set x | x in images
    {
      var i := 0;
      while i < |images|
        invariant i <= |images|
        invariant lockedImgs == old(lockedImgs) + set x | x in images[..i]
      {
        assert images[..i + 1] == images[..i] + [images[i]];
        lockedImgs := lockedImgs + {images[i]};
        i := i + 1;
      }
      assert images[..i] == images;
    }

    method ApplyDecision(m: Message)
      modifies this
      ensures files == if m.vote then old(files) - ImagesOf(m.sources, myId) else old(files)
      ensures lockedImgs == old(lockedImgs) - ImagesOf(m.sources, myId)
    {
      var i := 0;
      while i < |m.sources|
        invariant i <= |m.sources|
        invariant files == if m.vote then old(files) - ImagesOf(m.sources[..i], myId) else old(files)
        invariant lockedImgs == old(lockedImgs) - ImagesOf(m.sources[..i], myId)
      {
        var source := m.sources[i];
        ImagesStep(m.sources, i, myId);
        if source.node == myId {
          if m.vote {
            if source.img in files {
              files := files - {source.img};
            }
          }
          lockedImgs := lockedImgs - {source.img};
        }
        i := i + 1;
      }
      assert m.sources[..i] == m.sources;
    }
  }
}
