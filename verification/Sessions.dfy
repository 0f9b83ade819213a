/** What a user sees through descriptors: reads and writes of one session, and
    what a closed session leaves for the next, at any proxy. */
module Sessions {
  import opened Options
  import opened Bytes
  import opened CacheKeys
  import opened CacheSpec
  import opened FileServer
  import opened ProxySpec
  import opened Coherence

  /** Reading twice is reading once. */
  lemma ReadsJoin(px: ProxyState, fd: nat, n: nat, m: nat)
    requires Read(px, fd, n).1.Data?
    ensures var (px1, first) := Read(px, fd, n); var (px2, second) := Read(px1, fd, m);
      second.Data? && Read(px, fd, n + m) == (px2, Data(first.bytes + second.bytes))
  {
    var s, file := px.sessions[fd], px.store.disk[KeyOf(px.sessions[fd], fd)];
    var a := Slice(file, s.pos, n);
    var b := Slice(file, s.pos + |a|, m);
    assert a + b == Slice(file, s.pos, n + m);
    var px1 := Read(px, fd, n).0;
    assert KeyOf(px1.sessions[fd], fd) == KeyOf(s, fd);
    assert px.sessions[fd := s.(pos := s.pos + |a|)][fd := s.(pos := s.pos + |a| + |b|)] ==
      px.sessions[fd := s.(pos := s.pos + |a| + |b|)];
  }

  /** What a read gives, byte by byte: as many bytes as asked for and there are
      behind the position, which moves behind them; nothing else changes. */
  lemma ReadGives(px: ProxyState, fd: nat, n: nat)
    requires Read(px, fd, n).1.Data?
    ensures var s, file := px.sessions[fd], FileOf(px.store.disk, KeyOf(px.sessions[fd], fd));
      var (px', reply) := Read(px, fd, n);
      && |reply.bytes| == (if s.pos >= |file| then 0 else if |file| - s.pos < n then |file| - s.pos else n)
      && (forall i :: 0 <= i < |reply.bytes| ==> reply.bytes[i] == file[s.pos + i])
      && px' == px.(sessions := px.sessions[fd := s.(pos := s.pos + |reply.bytes|)])
  {
  }

  /** Writing twice is writing once: the proxy is left the same, and each write
      answers the number of its own bytes. */
  lemma WritesJoin(px: ProxyState, fd: nat, a: Content, b: Content)
    requires Write(px, fd, a).1.Count?
    ensures var (px1, first) := Write(px, fd, a); var (px2, second) := Write(px1, fd, b);
      && first == Count(|a|) && second == Count(|b|)
      && Write(px, fd, a + b) == (px2, Count(|a| + |b|))
  {
    var s, k := px.sessions[fd], KeyOf(px.sessions[fd], fd);
    var file := px.store.disk[k];
    WritesAtJoin(file, s.pos, a, b);
    hide WriteAt;
    var px1 := Write(px, fd, a).0;
    assert KeyOf(px1.sessions[fd], fd) == k;
    var one := WriteAt(file, s.pos, a);
    assert px.store.disk[k := one][k := WriteAt(one, s.pos + |a|, b)] == px.store.disk[k := WriteAt(file, s.pos, a + b)];
    assert px.sessions[fd := Writer(s.path, s.ver, s.pos + |a|)][fd := Writer(s.path, s.ver, s.pos + |a| + |b|)] ==
      px.sessions[fd := Writer(s.path, s.ver, s.pos + |a + b|)];
  }

  lemma WritesAtJoin(file: Content, pos: nat, a: Content, b: Content)
    ensures WriteAt(WriteAt(file, pos, a), pos + |a|, b) == WriteAt(file, pos, a + b)
  {
    if a == [] {
      assert a + b == b;
    } else if b == [] {
      assert a + b == a;
    }
  }

  /** A read right after a write starts behind the bytes written. */
  lemma ReadAfterWrite(px: ProxyState, fd: nat, buf: Content, n: nat)
    requires Write(px, fd, buf).1.Count?
    ensures var px1 := Write(px, fd, buf).0;
      var before, file := px.sessions[fd].pos, FileOf(px1.store.disk, KeyOf(px.sessions[fd], fd));
      var (px2, reply) := Read(px1, fd, n);
      && reply.Data?
      && |reply.bytes| <= n && (reply.bytes == [] || before + |buf| + |reply.bytes| <= |file|)
      && (forall i :: 0 <= i < |reply.bytes| ==> reply.bytes[i] == file[before + |buf| + i])
      && (before + |buf| + n <= |file| ==> |reply.bytes| == n)
  {
    hide WriteAt;
  }

  // ---- seeking

  /** A seek from each origin: the position asked for, or an error and no change if
      it is negative. */
  lemma SeekReplies(px: ProxyState, fd: nat, offset: int)
    requires fd in px.sessions && KeyOf(px.sessions[fd], fd) in px.store.disk
    ensures var s, file := px.sessions[fd], px.store.disk[KeyOf(px.sessions[fd], fd)];
      && Lseek(px, fd, offset, FROM_START) == Sought(px, fd, offset)
      && Lseek(px, fd, offset, FROM_CURRENT) == Sought(px, fd, s.pos + offset)
      && Lseek(px, fd, offset, FROM_END) == Sought(px, fd, |file| + offset)
  {
  }

  function Sought(px: ProxyState, fd: nat, target: int): (ProxyState, Reply)
    requires fd in px.sessions
  {
    if target < 0 then (px, Failed(EINVAL))
    else (px.(sessions := px.sessions[fd := px.sessions[fd].(pos := target)]), Count(target))
  }

  /** Going back by what was read, and reading it again. */
  lemma ReadSeekBackRead(px: ProxyState, fd: nat, n: nat)
    requires Read(px, fd, n).1.Data?
    ensures var (px1, first) := Read(px, fd, n);
      var (px2, sought) := Lseek(px1, fd, -|first.bytes|, FROM_CURRENT);
      && sought == Count(px.sessions[fd].pos) && px2 == px
      && Read(px2, fd, |first.bytes|) == (px1, first)
  {
    var s, k := px.sessions[fd], KeyOf(px.sessions[fd], fd);
    var px1 := Read(px, fd, n).0;
    assert px1.sessions[fd := s] == px.sessions;
  }

  /** Seeking from the end: reading from n before it gives the last n bytes, from the
      end itself nothing. */
  lemma SeekFromEnd(px: ProxyState, fd: nat, n: nat)
    requires fd in px.sessions && KeyOf(px.sessions[fd], fd) in px.store.disk
    requires n <= |px.store.disk[KeyOf(px.sessions[fd], fd)]|
    ensures var file := px.store.disk[KeyOf(px.sessions[fd], fd)];
      var (px1, sought) := Lseek(px, fd, 0 - n, FROM_END);
      && sought == Count(|file| - n)
      && (forall m :: m >= n ==> Read(px1, fd, m).1 == Data(file[|file| - n..]))
  {
  }

  /** A seek fails with EINVAL, and keeps the position, if and only if the position
      asked for is negative. */
  lemma SeekFailsIff(px: ProxyState, fd: nat, offset: int, whence: Whence)
    requires fd in px.sessions && KeyOf(px.sessions[fd], fd) in px.store.disk
    ensures var s, file := px.sessions[fd], px.store.disk[KeyOf(px.sessions[fd], fd)];
      var (px', reply) := Lseek(px, fd, offset, whence);
      && (reply == Failed(EINVAL) <==>
            || (whence == FROM_START && offset < 0)
            || (whence == FROM_CURRENT && s.pos + offset < 0)
            || (whence == FROM_END && |file| + offset < 0))
      && (reply == Failed(EINVAL) ==> px' == px) && (reply.Count? || reply == Failed(EINVAL))
  {
  }

  /** A write, read back: after seeking to where it began, a read of its length
      returns its bytes; the bytes around it are as they were. */
  lemma WriteReadsBack(px: ProxyState, fd: nat, buf: Content)
    requires Write(px, fd, buf).1.Count? && buf != []
    ensures var s, k := px.sessions[fd], KeyOf(px.sessions[fd], fd);
      var px1 := Write(px, fd, buf).0;
      var (px2, sought) := Lseek(px1, fd, s.pos, FROM_START);
      && sought == Count(s.pos) && Read(px2, fd, |buf|).1 == Data(buf)
      && k in px1.store.disk && k in px.store.disk
      && var old_file, file := px.store.disk[k], px1.store.disk[k];
      && |file| >= |old_file| && |file| >= s.pos + |buf|
      && (forall i :: 0 <= i < |old_file| && (i < s.pos || i >= s.pos + |buf|) ==> file[i] == old_file[i])
      && (forall i :: |old_file| <= i < s.pos ==> file[i] == 0)
  {
    var s, k := px.sessions[fd], KeyOf(px.sessions[fd], fd);
    var file := WriteAt(px.store.disk[k], s.pos, buf);
    assert file[s.pos..s.pos + |buf|] == buf;
    assert Slice(file, s.pos, |buf|) == buf;
  }

  /** If it succeeds, an open gives a descriptor whose file holds `bytes`. */
  ghost predicate Shows(o: Outcome, bytes: Content) {
    o.reply.Opened? ==>
      && o.reply.fd in o.proxy.sessions
      && var k := KeyOf(o.proxy.sessions[o.reply.fd], o.reply.fd);
      k in o.proxy.store.disk && o.proxy.store.disk[k] == bytes
  }

  /** A write close that completes, with no other close since its open. */
  ghost predicate ClosesInTurn(sys: System, i: nat, fd: nat)
    requires Sized(sys) && i < |sys.proxies|
  {
    var px := sys.proxies[i];
    && Respond(sys, Event(i, CloseCall(fd))).reply == Done
    && fd in px.sessions && px.sessions[fd].Writer?
    && px.sessions[fd].ver == Ver(sys.server, px.sessions[fd].path)
  }

  /** The whole story of one file over two sessions. In any orderly run, a write
      close that completes with no other close since its open makes its private
      copy what later opens see, at every proxy and in every mode, as long as the
      server's version stays what that close made it. */
  lemma LaterOpensSeeTheClose(sys: System, events: seq<Event>, i: nat, fd: nat, more: seq<Event>, j: nat, mode: OpenMode)
    requires Initial(sys) && i < |sys.proxies| && j < |sys.proxies| && Addressed(sys, events)
    requires var all := events + [Event(i, CloseCall(fd))] + more; Addressed(sys, all) && OrderlyRun(sys, all)
    requires ClosesInTurn(Run(sys, events), i, fd)
    requires var p := Run(sys, events).proxies[i].sessions[fd].path; var closed := events + [Event(i, CloseCall(fd))];
      Addressed(sys, closed) && Ver(Run(sys, closed + more).server, p) == Ver(Run(sys, closed).server, p)
    ensures var px := Run(sys, events).proxies[i];
      var p, mine := px.sessions[fd].path, KeyOf(px.sessions[fd], fd);
      var later := Run(sys, events + [Event(i, CloseCall(fd))] + more);
      mine in px.store.disk && Shows(Respond(later, Event(j, OpenCall(p, mode))), px.store.disk[mine])
  {
    hide Respond;
    hide Orderly;
    hide Run;
    hide Ver;
    hide Shows;
    var closed := events + [Event(i, CloseCall(fd))];
    var px := Run(sys, events).proxies[i];
    FrontIsOrderly(sys, closed, more);
    CloseLeaves(sys, events, i, fd);
    LaterOpenShows(sys, closed, more, j, px.sessions[fd].path, mode);
  }

  lemma CloseLeaves(sys: System, events: seq<Event>, i: nat, fd: nat)
    requires Initial(sys) && i < |sys.proxies| && Addressed(sys, events)
    requires var closed := events + [Event(i, CloseCall(fd))]; Addressed(sys, closed) && OrderlyRun(sys, closed)
    requires ClosesInTurn(Run(sys, events), i, fd)
    ensures var px := Run(sys, events).proxies[i];
      var p, mine := px.sessions[fd].path, KeyOf(px.sessions[fd], fd);
      var after := Run(sys, events + [Event(i, CloseCall(fd))]).server;
      mine in px.store.disk && p in after.files && after.files[p] == px.store.disk[mine]
  {
    hide Respond;
    hide Orderly;
    hide Ver;
    var close := Event(i, CloseCall(fd));
    StepIsLast(sys, events, close);
    StepServer(Run(sys, events), close);
    FrontIsOrderly(sys, events, [close]);
    LastIsOrderly(sys, events, close);
    hide Run;
    CloseWritesBack(sys, events, i, fd);
  }

  lemma LaterOpenShows(sys: System, closed: seq<Event>, more: seq<Event>, j: nat, p: string, mode: OpenMode)
    requires Initial(sys) && j < |sys.proxies| && Addressed(sys, closed + more) && OrderlyRun(sys, closed + more)
    requires Addressed(sys, closed) && p in Run(sys, closed).server.files
    requires Ver(Run(sys, closed + more).server, p) == Ver(Run(sys, closed).server, p)
    ensures Shows(Respond(Run(sys, closed + more), Event(j, OpenCall(p, mode))), Run(sys, closed).server.files[p])
  {
    hide Respond;
    hide Orderly;
    hide Run;
    FrontIsOrderly(sys, closed, more);
    RunsAreCoherent(sys, closed);
    RunsAdvance(sys, closed, more);
    var later := Run(sys, closed + more);
    AdvanceAt(Run(sys, closed).server, later.server, p);
    OpensServeCurrentBytes(sys, closed + more, j, p, mode);
    OpenKeepsBytes(later, j, p, mode);
  }

  lemma StepServer(sys: System, e: Event)
    requires Sized(sys) && e.proxy < |sys.proxies|
    ensures Step(sys, e).server == Respond(sys, e).server
  {
  }

  lemma AdvanceAt(sv: ServerState, sv': ServerState, p: string)
    requires Advances(sv, sv') && Ver(sv', p) == Ver(sv, p) && p in sv.files && ServerOk(sv)
    ensures p in sv'.files && FileBytes(sv', p) == FileBytes(sv, p)
  {
  }

  lemma FrontIsOrderly(sys: System, front: seq<Event>, more: seq<Event>)
    requires Sized(sys) && Addressed(sys, front + more) && OrderlyRun(sys, front + more)
    ensures Addressed(sys, front) && OrderlyRun(sys, front)
  {
    hide Orderly;
    hide Run;
    forall n | 0 <= n < |front|
      ensures front[n].proxy < |sys.proxies| && Addressed(sys, front[..n]) && Orderly(Run(sys, front[..n]), front[n])
    {
      assert (front + more)[n] == front[n] && (front + more)[..n] == front[..n];
    }
  }

  lemma LastIsOrderly(sys: System, front: seq<Event>, e: Event)
    requires Sized(sys) && Addressed(sys, front + [e]) && OrderlyRun(sys, front + [e]) && Addressed(sys, front)
    ensures e.proxy < |sys.proxies| && Orderly(Run(sys, front), e)
  {
    hide Orderly;
    hide Run;
    assert (front + [e])[..|front|] == front && (front + [e])[|front|] == e;
  }

  // The server only moves forward in an orderly run.
  lemma {:induction false} RunsAdvance(sys: System, events: seq<Event>, more: seq<Event>)
    requires Initial(sys) && Addressed(sys, events + more) && OrderlyRun(sys, events + more) && Addressed(sys, events)
    ensures Advances(Run(sys, events).server, Run(sys, events + more).server)
    decreases |more|
  {
    hide Orderly;
    hide Step;
    hide Respond;
    hide Current;
    hide Coherent;
    hide FileBytes;
    if more == [] {
      assert events + more == events;
    } else {
      var front, e := more[..|more| - 1], more[|more| - 1];
      assert events + more == events + front + [e];
      FrontIsOrderly(sys, events + front, [e]);
      LastIsOrderly(sys, events + front, e);
      RunsAdvance(sys, events, front);
      RunsAreCoherent(sys, events + front);
      var mid := Run(sys, events + front);
      InvokeCoherent(mid, e);
      StepIsLast(sys, events + front, e);
      StepServer(mid, e);
    }
  }

  // An open does not change the bytes of a file the server has.
  lemma OpenKeepsBytes(sys: System, j: nat, p: string, mode: OpenMode)
    requires Sized(sys) && j < |sys.proxies| && p in sys.server.files
    ensures FileBytes(Respond(sys, Event(j, OpenCall(p, mode))).server, p) == FileBytes(sys.server, p)
  {
    hide Put;
    hide GrantWriter;
    hide GrantReader;
  }
}
