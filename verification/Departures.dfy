/** The steps that break coherence, exactly: closes and unlinks, and no others. */
module Departures {
  import opened Options
  import opened Bytes
  import opened CacheKeys
  import opened CacheSpec
  import opened FileServer
  import opened ProxySpec
  import opened Coherence

  // ---- a close without a version entry

  /** The close of this descriptor sends a chunk for a file without a version
      entry: the chunk is written, and the close ends in an exception. */
  predicate FailsToPush(sv: ServerState, px: ProxyState, max: int, fd: nat, p: string, v: nat) {
    && p !in sv.versions
    && Private(p, v, fd) in px.store.disk && px.store.disk[Private(p, v, fd)] != []
    && Reserve(px.store, max, Shared(p, v + 1)).ok
  }

  /** The server's file after the chunk. */
  function Torn(sv: ServerState, p: string, data: Content): Content
    requires data != []
  {
    Overlay(FileBytes(sv, p), ChunkAt(data, 0))
  }

  /** Descriptor g has a private copy of version 1, shorter than n bytes. */
  predicate FallsShort(px: ProxyState, disk: map<Key, Content>, p: string, n: nat, g: nat) {
    && g in px.sessions && px.sessions[g].Writer? && px.sessions[g].path == p && px.sessions[g].ver == 1
    && Private(p, 1, g) in disk && |disk[Private(p, 1, g)]| < n
  }

  ghost predicate CopiesReach(px: ProxyState, disk: map<Key, Content>, p: string, n: nat) {
    forall g :: !FallsShort(px, disk, p, n, g)
  }

  /** The closing proxy stays coherent: the descriptor was opened before the file
      was there, the zeros that the close leaves locally agree with the file, and
      no other private copy falls short of it. */
  ghost predicate ZerosFit(sv: ServerState, px: ProxyState, max: int, fd: nat, p: string, v: nat)
    requires FailsToPush(sv, px, max, fd, p, v)
  {
    var data, r := px.store.disk[Private(p, v, fd)], Reserve(px.store, max, Shared(p, v + 1)).store;
    && v == 0
    && Overlay(FileOf(r.disk, Shared(p, 1)), Zeros(|ChunkAt(data, 0)|)) == Torn(sv, p, data)
    && CopiesReach(px, r.disk, p, |Torn(sv, p, data)|)
  }

  // What such a close leaves behind.
  lemma FailedPush(sv: ServerState, px: ProxyState, max: int, fd: nat, p: string, v: nat)
    requires FailsToPush(sv, px, max, fd, p, v) && fd in px.sessions
    ensures var o := CloseWriter(sv, px, max, fd, p, v); var next := Shared(p, v + 1);
      var data, r := px.store.disk[Private(p, v, fd)], Reserve(px.store, max, next).store;
      && o.reply == Thrown
      && o.server == ServerState(sv.files[p := Torn(sv, p, data)], sv.versions)
      && o.proxy == px.(store :=
           r.(disk := r.disk[next := Overlay(FileOf(r.disk, next), Zeros(|ChunkAt(data, 0)|))]))
  {
    hide Reserve;
    hide WriteAt;
    hide Overlay;
    hide FileServer.Push;
    var data := px.store.disk[Private(p, v, fd)];
    WriteBackNeedsAnEntry(sv, p, data);
    ZerosWritten(FileOf(Reserve(px.store, max, Shared(p, v + 1)).store.disk, Shared(p, v + 1)), ChunkAt(data, 0));
  }

  /** A close without a version entry keeps its own proxy coherent if and only if
      the zeros fit; in particular it never does for a descriptor opened on a file
      that was there. */
  lemma NoEntryCloseKeepsIff(sv: ServerState, px: ProxyState, max: int, fd: nat, p: string, v: nat)
    requires ServerOk(sv) && Coherent(sv, px)
    requires fd in px.sessions && px.sessions[fd].Writer? && px.sessions[fd].path == p && px.sessions[fd].ver == v
    requires FailsToPush(sv, px, max, fd, p, v)
    ensures var o := CloseWriter(sv, px, max, fd, p, v);
      && o.reply == Thrown && ServerOk(o.server)
      && (Coherent(o.server, o.proxy) <==> ZerosFit(sv, px, max, fd, p, v))
  {
    hide Reserve;
    hide CloseWriter;
    hide Overlay;
    var next, r := Shared(p, v + 1), Reserve(px.store, max, Shared(p, v + 1)).store;
    FailedPush(sv, px, max, fd, p, v);
    ReservePrunes(px.store, max, next);
    var o := CloseWriter(sv, px, max, fd, p, v);
    var torn := Torn(sv, p, px.store.disk[Private(p, v, fd)]);
    assert WriterFits(sv, px.store, fd, p, v);
    if ZerosFit(sv, px, max, fd, p, v) {
      assert |torn| >= |FileBytes(sv, p)| by { TornIsLonger(sv, p, px.store.disk[Private(p, v, fd)]); }
      ZerosKeep(sv, o.server, px, r, o.proxy, p, torn);
    } else if v == 0 && o.proxy.store.disk[next] == torn {
      var g :| FallsShort(px, r.disk, p, |torn|, g);
      assert !WriterFits(o.server, o.proxy.store, g, p, 1);
    } else {
      assert !Fits(o.server, o.proxy.store, p, v + 1);
    }
  }

  lemma ZerosKeep(sv: ServerState, sv': ServerState, px: ProxyState, r: Store, px': ProxyState, p: string, torn: Content)
    requires ServerOk(sv) && Coherent(sv, px) && p !in sv.versions && |torn| >= |FileBytes(sv, p)|
    requires sv' == ServerState(sv.files[p := torn], sv.versions)
    requires Reserved(px.store, r, true, Shared(p, 1))
    requires px' == px.(store := r.(disk := r.disk[Shared(p, 1) := torn])) && CopiesReach(px, r.disk, p, |torn|)
    ensures Coherent(sv', px')
  {
    forall q: string, u: nat
      ensures Fits(sv', px'.store, q, u)
    {
      assert Fits(sv, px.store, q, u);
    }
    forall g | g in px'.sessions && px'.sessions[g].Writer?
      ensures WriterFits(sv', px'.store, g, px'.sessions[g].path, px'.sessions[g].ver)
    {
      assert !FallsShort(px, r.disk, p, |torn|, g);
      assert WriterFits(sv, px.store, g, px.sessions[g].path, px.sessions[g].ver);
    }
  }

  /** Another proxy stays coherent: its cached copy of version 1, if any, is the
      new file, and none of its private copies falls short. */
  ghost predicate Withstands(px: ProxyState, p: string, torn: Content) {
    && (Shared(p, 1) in px.store.order ==> FileOf(px.store.disk, Shared(p, 1)) == torn)
    && CopiesReach(px, px.store.disk, p, |torn|)
  }

  lemma WithstandsIff(sv: ServerState, sv': ServerState, px: ProxyState, p: string, torn: Content)
    requires ServerOk(sv) && Coherent(sv, px) && p !in sv.versions && |torn| >= |FileBytes(sv, p)|
    requires sv' == ServerState(sv.files[p := torn], sv.versions)
    ensures Coherent(sv', px) <==> Withstands(px, p, torn)
  {
    if Withstands(px, p, torn) {
      forall q: string, u: nat ensures Fits(sv', px.store, q, u) {
        assert Fits(sv, px.store, q, u);
      }
      forall g | g in px.sessions && px.sessions[g].Writer?
        ensures WriterFits(sv', px.store, g, px.sessions[g].path, px.sessions[g].ver)
      {
        assert !FallsShort(px, px.store.disk, p, |torn|, g);
        assert WriterFits(sv, px.store, g, px.sessions[g].path, px.sessions[g].ver);
      }
    } else if Shared(p, 1) in px.store.order && FileOf(px.store.disk, Shared(p, 1)) != torn {
      assert !Fits(sv', px.store, p, 1);
    } else {
      var g :| FallsShort(px, px.store.disk, p, |torn|, g);
      assert !WriterFits(sv', px.store, g, p, 1);
    }
  }

  // ---- unlink

  /** The proxy has bytes in a shared file, cached or not, of the file's current
      version or a later one: a new file of the same name would be taken for it. */
  predicate Remembers(sv: ServerState, px: ProxyState, p: string, v: nat) {
    v >= Current(sv, p) && FileOf(px.store.disk, Shared(p, v)) != []
  }

  ghost predicate Forgot(sv: ServerState, px: ProxyState, p: string) {
    forall v: nat :: !Remembers(sv, px, p, v)
  }

  lemma ForgotIff(sv: ServerState, px: ProxyState, p: string)
    requires Coherent(sv, px) && p in sv.files
    ensures Coherent(Delete(sv, p), px) <==> Forgot(sv, px, p)
  {
    var sv' := Delete(sv, p);
    if Forgot(sv, px, p) {
      forall q: string, u: nat ensures Fits(sv', px.store, q, u) {
        assert Fits(sv, px.store, q, u);
        assert !Remembers(sv, px, q, u) || q != p;
      }
      forall g | g in px.sessions && px.sessions[g].Writer?
        ensures WriterFits(sv', px.store, g, px.sessions[g].path, px.sessions[g].ver)
      {
        assert WriterFits(sv, px.store, g, px.sessions[g].path, px.sessions[g].ver);
      }
    } else {
      var v: nat :| Remembers(sv, px, p, v);
      assert !Fits(sv', px.store, p, v);
    }
  }

  /** unlink keeps the system coherent if and only if the server does not have the
      file, or no proxy has bytes of it that a new file could be mistaken for. */
  lemma UnlinkKeepsIff(sys: System, e: Event)
    requires SystemCoherent(sys) && e.proxy < |sys.proxies| && e.call.UnlinkCall?
    ensures SystemCoherent(Step(sys, e)) <==> UnlinkIsSafe(sys, e.call.path)
  {
    var p, sys' := e.call.path, Step(sys, e);
    var sv := sys.server;
    assert sys'.server == Delete(sv, p) && sys'.proxies == sys.proxies;
    if p in sv.files {
      forall j | 0 <= j < |sys.proxies| ensures Coherent(Delete(sv, p), sys.proxies[j]) <==> Forgot(sv, sys.proxies[j], p) {
        ForgotIff(sv, sys.proxies[j], p);
      }
      hide Coherent;
      hide Forgot;
      assert ServerOk(sys'.server);
    } else {
      assert Delete(sv, p) == sv;
    }
  }

  ghost predicate UnlinkIsSafe(sys: System, p: string) {
    p in sys.server.files ==> forall j :: 0 <= j < |sys.proxies| ==> Forgot(sys.server, sys.proxies[j], p)
  }

  // ---- every step

  /** The condition on the close of a write descriptor. */
  ghost predicate CloseIsSafe(sys: System, i: nat, fd: nat)
    requires Sized(sys) && i < |sys.proxies| && fd in sys.proxies[i].sessions && sys.proxies[i].sessions[fd].Writer?
  {
    var sv, px, max := sys.server, sys.proxies[i], sys.budgets[i];
    var p, v := px.sessions[fd].path, px.sessions[fd].ver;
    && (InstallsEmpty(px, max, fd, p, v) ==> EmptyEntryFits(sv, px, max, p, v))
    && (FailsToPush(sv, px, max, fd, p, v) ==>
          && ZerosFit(sv, px, max, fd, p, v)
          && forall j :: 0 <= j < |sys.proxies| && j != i ==>
               Withstands(sys.proxies[j], p, Torn(sv, p, px.store.disk[Private(p, v, fd)])))
  }

  /** The events that keep a coherent system coherent. */
  ghost predicate IsSafe(sys: System, e: Event)
    requires Sized(sys) && e.proxy < |sys.proxies|
  {
    match e.call
    case UnlinkCall(p) => UnlinkIsSafe(sys, p)
    case CloseCall(fd) =>
      fd in sys.proxies[e.proxy].sessions && sys.proxies[e.proxy].sessions[fd].Writer? ==> CloseIsSafe(sys, e.proxy, fd)
    case _ => true
  }

  // Whether one proxy and the server carry the others with them.
  lemma OthersFollow(sys: System, e: Event)
    requires SystemCoherent(sys) && e.proxy < |sys.proxies| && ServerOk(Respond(sys, e).server)
    requires Advances(sys.server, Respond(sys, e).server)
    ensures SystemCoherent(Step(sys, e)) <==> Coherent(Respond(sys, e).server, Respond(sys, e).proxy)
  {
    hide Respond;
    var o, sys' := Respond(sys, e), Step(sys, e);
    assert sys'.proxies[e.proxy] == o.proxy;
    forall j | 0 <= j < |sys.proxies| && j != e.proxy ensures Coherent(o.server, sys'.proxies[j]) {
      AdvanceKeepsCoherent(sys.server, o.server, sys.proxies[j]);
    }
    hide Coherent;
  }

  lemma FailedCloseKeepsIff(sys: System, i: nat, fd: nat)
    requires SystemCoherent(sys) && i < |sys.proxies| && fd in sys.proxies[i].sessions && sys.proxies[i].sessions[fd].Writer?
    requires var s := sys.proxies[i].sessions[fd]; FailsToPush(sys.server, sys.proxies[i], sys.budgets[i], fd, s.path, s.ver)
    ensures SystemCoherent(Step(sys, Event(i, CloseCall(fd)))) <==> CloseIsSafe(sys, i, fd)
  {
    hide Reserve;
    hide CloseWriter;
    hide Fits;
    hide WriterFits;
    var sv, px, max := sys.server, sys.proxies[i], sys.budgets[i];
    var p, v := px.sessions[fd].path, px.sessions[fd].ver;
    var torn := Torn(sv, p, px.store.disk[Private(p, v, fd)]);
    NoEntryCloseKeepsIff(sv, px, max, fd, p, v);
    FailedPush(sv, px, max, fd, p, v);
    var o, sys' := CloseWriter(sv, px, max, fd, p, v), Step(sys, Event(i, CloseCall(fd)));
    assert o == Respond(sys, Event(i, CloseCall(fd)));
    forall j | 0 <= j < |sys.proxies| && j != i
      ensures Coherent(o.server, sys'.proxies[j]) <==> Withstands(sys.proxies[j], p, torn)
    {
      TornIsLonger(sv, p, px.store.disk[Private(p, v, fd)]);
      WithstandsIff(sv, o.server, sys.proxies[j], p, torn);
    }
    assert sys'.proxies[i] == o.proxy && sys'.server == o.server;
    hide Coherent;
    hide Withstands;
    hide ZerosFit;
    hide Step;
  }

  lemma TornIsLonger(sv: ServerState, p: string, data: Content)
    requires data != []
    ensures |Torn(sv, p, data)| >= |FileBytes(sv, p)|
  {
  }

  /** One call at one proxy keeps a coherent system coherent if and only if it is
      safe: every open, read, write, seek and read close is; a write close is
      unless it installs an empty entry that disagrees with the server or fails to
      push onto a file that someone has; an unlink is unless some proxy has
      bytes of the file's version. */
  lemma StepKeepsIff(sys: System, e: Event)
    requires SystemCoherent(sys) && e.proxy < |sys.proxies|
    ensures SystemCoherent(Step(sys, e)) <==> IsSafe(sys, e)
  {
    hide Step;
    hide Coherent;
    if e.call.UnlinkCall? {
      UnlinkKeepsIff(sys, e);
    } else if e.call.CloseCall? && e.call.fd in sys.proxies[e.proxy].sessions
        && sys.proxies[e.proxy].sessions[e.call.fd].Writer? {
      WriteCloseKeepsIff(sys, e.proxy, e.call.fd);
    } else {
      StepCoherent(sys, e);
    }
  }

  lemma WriteCloseKeepsIff(sys: System, i: nat, fd: nat)
    requires SystemCoherent(sys) && i < |sys.proxies| && fd in sys.proxies[i].sessions && sys.proxies[i].sessions[fd].Writer?
    ensures SystemCoherent(Step(sys, Event(i, CloseCall(fd)))) <==> CloseIsSafe(sys, i, fd)
  {
    hide Reserve;
    hide Step;
    hide Coherent;
    hide CloseWriter;
    hide EmptyEntryFits;
    hide ZerosFit;
    hide Withstands;
    var e := Event(i, CloseCall(fd));
    var sv, px, max := sys.server, sys.proxies[i], sys.budgets[i];
    var p, v := px.sessions[fd].path, px.sessions[fd].ver;
    assert Respond(sys, e) == CloseWriter(sv, px, max, fd, p, v);
    if FailsToPush(sv, px, max, fd, p, v) {
      FailedCloseKeepsIff(sys, i, fd);
    } else if Private(p, v, fd) in px.store.disk && px.store.disk[Private(p, v, fd)] != [] && p !in sv.versions {
      UnreservedClose(sv, px, max, fd, p, v);
      ReserveFailsCoherent(sv, px, max, Shared(p, v + 1));
      OthersFollow(sys, e);
    } else {
      EmptyCloseIsTheException(sv, px, max, fd, p, v);
      OthersFollow(sys, e);
    }
  }

  lemma UnreservedClose(sv: ServerState, px: ProxyState, max: int, fd: nat, p: string, v: nat)
    requires Private(p, v, fd) in px.store.disk && !Reserve(px.store, max, Shared(p, v + 1)).ok
    ensures CloseWriter(sv, px, max, fd, p, v) ==
      Outcome(sv, px.(store := Reserve(px.store, max, Shared(p, v + 1)).store), Thrown)
  {
  }

  /** So a run keeps the system coherent throughout if and only if each of its
      events is safe where it happens. */
  lemma {:induction false} RunStaysCoherentIff(sys: System, events: seq<Event>)
    requires Initial(sys) && Addressed(sys, events)
    ensures (forall n :: 0 <= n <= |events| ==> SystemCoherent(Run(sys, events[..n]))) <==>
      (forall n :: 0 <= n < |events| ==> IsSafe(Run(sys, events[..n]), events[n]))
  {
    hide IsSafe;
    hide SystemCoherent;
    hide Run;
    hide Step;
    assert events[..|events|] == events;
    if events == [] {
      StartIsCoherent(sys);
    } else {
      var front, last := events[..|events| - 1], events[|events| - 1];
      forall n | 0 <= n <= |front| ensures front[..n] == events[..n] {
      }
      RunStaysCoherentIff(sys, front);
      if SystemCoherent(Run(sys, front)) {
        StepKeepsIff(Run(sys, front), last);
        assert events == front + [last];
        StepIsLast(sys, front, last);
      }
    }
  }

  lemma StartIsCoherent(sys: System)
    requires Initial(sys)
    ensures SystemCoherent(Run(sys, []))
  {
    InitialCoherent(sys);
  }
}
