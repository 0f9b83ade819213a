/** What each call answers, and what it leaves alone, over every run. */
module Replies {
  import opened Options
  import opened Bytes
  import opened CacheKeys
  import opened CacheSpec
  import opened FileServer
  import opened ProxySpec
  import opened Coherence
  import opened Pins
  import opened Civil

  // ---- open

  /** A cached entry is spelled like the path. */
  predicate IsSpelled(px: ProxyState, p: string) {
    Spelled(px.store.order, p).Some?
  }

  /** The error of an open that fails: ENOENT when a file is to be opened that the
      server does not have and no entry is spelled like; EEXIST when one is to be
      made that the server has, that an entry is spelled like, or whose version 1
      lies in the cache directory. */
  function OpenError(sv: ServerState, px: ProxyState, p: string, mode: OpenMode): Option<Errno> {
    match mode
    case READ => if p !in sv.files && !IsSpelled(px, p) then Some(ENOENT) else None
    case WRITE => if p !in sv.files && !IsSpelled(px, p) then Some(ENOENT) else None
    case CREATE => None
    case CREATE_NEW =>
      if p in sv.files || IsSpelled(px, p) || Shared(p, 1) in px.store.disk then Some(EEXIST) else None
  }

  /** The reply of an open that raises nothing. */
  function OpenReply(sv: ServerState, px: ProxyState, p: string, mode: OpenMode): Reply {
    match OpenError(sv, px, p, mode)
    case None => Opened(px.nextFd)
    case Some(errno) => Failed(errno)
  }

  /** The entry the descriptor of an open gets. */
  function OpenSession(sv: ServerState, px: ProxyState, p: string, mode: OpenMode): Session {
    var hit := Spelled(px.store.order, p);
    if mode == READ then Reader(if p in sv.files || hit.None? then Shared(p, Ver(sv, p)) else hit.value, 0)
    else Writer(p, if p in sv.files then Ver(sv, p) else if hit.Some? then 0 else 1, 0)
  }

  /** The server after an open: the version of a file it has is on record, and a
      file it lacks is made by CREATE and CREATE_NEW if no entry is spelled like
      it. */
  function ServerAfterOpen(sv: ServerState, px: ProxyState, p: string, mode: OpenMode): ServerState {
    if p in sv.files then Lookup(sv, p)
    else if (mode == CREATE || mode == CREATE_NEW) && OpenError(sv, px, p, mode).None? && !IsSpelled(px, p) then Create(sv, p)
    else sv
  }

  lemma GrantWriterSessions(px: ProxyState, max: int, p: string, v: nat, base: Content)
    ensures var r := GrantWriter(px, max, p, v, base);
      r.sessions == px.sessions[px.nextFd := Writer(p, v, 0)] && r.nextFd == px.nextFd + 1
  {
  }

  lemma FetchThenWriteReplies(sv: ServerState, px: ProxyState, max: int, p: string, v: nat)
    ensures var o := FetchThenWrite(sv, px, max, p, v);
      && o.server == sv
      && (o.reply == Thrown || o.reply == Opened(px.nextFd))
      && (o.reply == Thrown ==> o.proxy.sessions == px.sessions && o.proxy.nextFd == px.nextFd)
      && (o.reply != Thrown ==>
            o.proxy.sessions == px.sessions[px.nextFd := Writer(p, v, 0)] && o.proxy.nextFd == px.nextFd + 1)
  {
    hide Fetch;
    hide GrantWriter;
    var r := Fetch(px.store, max, Shared(p, v), FileBytes(sv, p));
    GrantWriterSessions(px.(store := r.store), max, p, v, Overlay(FileOf(px.store.disk, Shared(p, v)), FileBytes(sv, p)));
  }

  /** What an open answers in every mode: the error or the next descriptor, at
      position 0, unless an exception intervenes; an open that fails changes nothing
      at the proxy. */
  lemma OpenReplies(sv: ServerState, px: ProxyState, max: int, p: string, mode: OpenMode)
    requires ServerOk(sv)
    ensures var o := Open(sv, px, max, p, mode);
      && (o.reply == Thrown || o.reply == OpenReply(sv, px, p, mode))
      && (OpenError(sv, px, p, mode).Some? ==> o.reply == OpenReply(sv, px, p, mode) && o.proxy == px)
      && (o.reply == Thrown ==> o.proxy.sessions == px.sessions && o.proxy.nextFd == px.nextFd)
      && (o.reply.Opened? ==>
            && o.proxy.sessions == px.sessions[px.nextFd := OpenSession(sv, px, p, mode)]
            && o.proxy.nextFd == px.nextFd + 1)
      && o.server == ServerAfterOpen(sv, px, p, mode)
  {
    hide Fetch;
    hide FetchThenWrite;
    hide GrantWriter;
    hide Spelled;
    var ver, told := Ver(sv, p), Lookup(sv, p);
    assert p in sv.files <==> ver > 0;
    var hit := Hit(px.store.order, p, ver);
    if hit.Some? {
      GrantWriterSessions(px.(store := Touch(px.store, hit.value)), max, p, ver, FileOf(px.store.disk, hit.value));
    } else {
      FetchThenWriteReplies(told, px, max, p, ver);
      FetchThenWriteReplies(Create(told, p), px, max, p, 1);
    }
  }

  /** The bytes a descriptor sees when it is opened: those of the entry hit, or the
      server's over what lay in the file they are fetched into. */
  function OpenBytes(sv: ServerState, px: ProxyState, p: string): Content {
    var ver := Ver(sv, p);
    match Hit(px.store.order, p, ver)
    case Some(k) => FileOf(px.store.disk, k)
    case None => Overlay(FileOf(px.store.disk, Shared(p, if ver == 0 then 1 else ver)), FileBytes(sv, p))
  }

  lemma OpenContents(sv: ServerState, px: ProxyState, max: int, p: string, mode: OpenMode)
    requires ServerOk(sv) && Sound(px) && HaveCopies(px)
    ensures var o := Open(sv, px, max, p, mode);
      o.reply.Opened? ==>
        o.reply.fd in o.proxy.sessions
        && FileOf(o.proxy.store.disk, KeyOf(o.proxy.sessions[o.reply.fd], o.reply.fd)) == OpenBytes(sv, px, p)
  {
    hide Put;
    hide Spelled;
    hide Overlay;
    hide GrantWriter;
    hide FileBytes;
    SoundIsNoDup(px);
    FdsAreNew(px);
    hide Sound;
    var ver, bytes := Ver(sv, p), FileBytes(sv, p);
    assert p in sv.files <==> ver > 0;
    MadeBytes(sv, p);
    var hit := Hit(px.store.order, p, ver);
    if hit.Some? {
      var touched := px.(store := Touch(px.store, hit.value));
      InExcept(px.store.order, {hit.value});
      ExceptNoDup(px.store.order, {hit.value});
      GrantWriterContents(touched, max, p, ver, FileOf(px.store.disk, hit.value));
    } else {
      var k := Shared(p, if ver == 0 then 1 else ver);
      var file := Overlay(FileOf(px.store.disk, k), bytes);
      var st1 := px.store.(disk := px.store.disk[k := file]);
      PutPrunes(st1, max, k);
      GrantWriterContents(px.(store := Put(st1, max, k).store), max, p, k.ver, file);
    }
  }

  lemma MadeBytes(sv: ServerState, p: string)
    ensures FileBytes(Create(Lookup(sv, p), p), p) == FileBytes(sv, p) && FileBytes(Lookup(sv, p), p) == FileBytes(sv, p)
  {
  }

  lemma GrantWriterContents(px: ProxyState, max: int, p: string, v: nat, base: Content)
    requires NoDup(px.store.order) && Private(p, v, px.nextFd) !in px.store.disk
    requires Private(p, v, px.nextFd) !in px.store.order
    ensures var px' := GrantWriter(px, max, p, v, base);
      px'.sessions == px.sessions[px.nextFd := Writer(p, v, 0)]
      && FileOf(px'.store.disk, Private(p, v, px.nextFd)) == base
  {
    hide Put;
    var k := Private(p, v, px.nextFd);
    OverlayLonger([], base);
    hide Overlay;
    PutPrunes(px.store.(disk := px.store.disk[k := base]), max, k);
  }

  // ---- close

  /** What a close answers. For a write descriptor: ENOENT without a private copy,
      an exception if the reservation raises one or if there is something to push
      and no version entry, else Done. A read descriptor is gone even if the sweep
      raises; a write descriptor stays unless the close is Done. */
  lemma CloseReplies(sv: ServerState, px: ProxyState, max: int, fd: nat)
    ensures var o := Close(sv, px, max, fd);
      && (fd !in px.sessions ==> o == Outcome(sv, px, Thrown))
      && (fd in px.sessions && px.sessions[fd].Reader? ==>
            && o.server == sv && o.proxy.sessions == px.sessions - {fd} && o.proxy.nextFd == px.nextFd
            && o.reply == if SweepsWell(px, px.sessions[fd].key) then Done else Thrown)
      && (fd in px.sessions && px.sessions[fd].Writer? ==>
            && o.reply == WriteCloseReply(sv, px, max, fd)
            && (o.reply.Failed? ==> o.server == sv && o.proxy == px)
            && o.proxy.sessions == (if o.reply == Done then px.sessions - {fd} else px.sessions)
            && o.proxy.nextFd == px.nextFd
            && var s := px.sessions[fd];
               o.server == if KeyOf(s, fd) in px.store.disk && Reserve(px.store, max, Shared(s.path, s.ver + 1)).ok
                 then Push(sv, s.path, px.store.disk[KeyOf(s, fd)], 0).server else sv)
  {
    hide Reserve;
    hide FileServer.Push;
    hide RemoveWriter;
    if fd in px.sessions {
      if px.sessions[fd].Reader? {
        SweepTwice(px, px.sessions[fd].key);
      } else {
        var s := px.sessions[fd];
        if KeyOf(s, fd) in px.store.disk {
          PushReplies(sv, s.path, px.store.disk[KeyOf(s, fd)]);
        }
      }
    }
    hide CheckStale;
  }

  /** The sweep of a read close raises nothing. */
  predicate SweepsWell(px: ProxyState, k: Key) {
    CheckStale(Unpin(Touch(px.store, k), k), k).ok
  }

  function WriteCloseReply(sv: ServerState, px: ProxyState, max: int, fd: nat): Reply
    requires fd in px.sessions && px.sessions[fd].Writer?
  {
    var s, mine := px.sessions[fd], KeyOf(px.sessions[fd], fd);
    if mine !in px.store.disk then Failed(ENOENT)
    else if !Reserve(px.store, max, Shared(s.path, s.ver + 1)).ok then Thrown
    else if px.store.disk[mine] != [] && s.path !in sv.versions then Thrown
    else Done
  }

  lemma PushReplies(sv: ServerState, p: string, data: Content)
    ensures Push(sv, p, data, 0).ok <==> data == [] || p in sv.versions
  {
    if data != [] {
      WriteBackNeedsAnEntry(sv, p, data);
    }
  }

  // A sweep that raised nothing raises nothing again, and finds nothing.
  lemma SweepTwice(px: ProxyState, k: Key)
    ensures var once := CheckStale(Unpin(Touch(px.store, k), k), k);
      once.ok ==> CheckStale(once.store, k).ok
  {
    var st := Unpin(Touch(px.store, k), k);
    var once := CheckStale(st, k);
    if once.ok {
      SweepOkOnLess(st, TestFor(k), st.order);
      SweepLeavesLess(st, TestFor(k), st.order);
      SweepOkOnLess(once.store, TestFor(k), once.store.order);
    }
  }

  lemma {:induction false} SweepOkOnLess(st: Store, test: Key -> StaleTest, todo: seq<Key>)
    ensures SweepFrom(st, test, todo).ok <==> forall x :: x in todo ==> test(x) != Malformed
    decreases |todo|
  {
    if todo != [] {
      match test(todo[0])
      case Malformed =>
      case Stale => SweepOkOnLess(if CacheSpec.Pins(st, todo[0]) == 0 then Drop(st, todo[0]) else st, test, todo[1..]);
      case Keep => SweepOkOnLess(st, test, todo[1..]);
    }
  }

  lemma {:induction false} SweepLeavesLess(st: Store, test: Key -> StaleTest, todo: seq<Key>)
    ensures forall x :: x in SweepFrom(st, test, todo).store.order ==> x in st.order
    decreases |todo|
  {
    if todo != [] {
      match test(todo[0])
      case Malformed =>
      case Stale =>
        InExcept(st.order, {todo[0]});
        SweepLeavesLess(if CacheSpec.Pins(st, todo[0]) == 0 then Drop(st, todo[0]) else st, test, todo[1..]);
      case Keep => SweepLeavesLess(st, test, todo[1..]);
    }
  }

  // ---- read, write, seek

  /** The descriptor is open and its file is there. */
  predicate IsReady(px: ProxyState, fd: nat) {
    fd in px.sessions && KeyOf(px.sessions[fd], fd) in px.store.disk
  }

  /** When read, write and seek fail, and with what; a call that fails changes
      nothing, and one that does not is about its own descriptor only. */
  lemma FileCallReplies(px: ProxyState, fd: nat, n: nat, buf: Content, offset: int, whence: Whence)
    ensures Read(px, fd, n).1 ==
      if fd !in px.sessions then Failed(EBADF) else if !IsReady(px, fd) then Failed(ENOENT) else Data(Read(px, fd, n).1.bytes)
    ensures Write(px, fd, buf).1 ==
      if !IsReady(px, fd) || px.sessions[fd].Reader? then Failed(EBADF) else Count(|buf|)
    ensures Lseek(px, fd, offset, whence).1 == Failed(EBADF) <==> !IsReady(px, fd)
    ensures OnlyDescriptor(px, Read(px, fd, n).0, fd) && OnlyDescriptor(px, Write(px, fd, buf).0, fd)
      && OnlyDescriptor(px, Lseek(px, fd, offset, whence).0, fd)
    ensures Read(px, fd, n).0.store == px.store && Lseek(px, fd, offset, whence).0.store == px.store
    ensures Read(px, fd, n).1.Failed? ==> Read(px, fd, n).0 == px
    ensures Write(px, fd, buf).1.Failed? ==> Write(px, fd, buf).0 == px
    ensures Lseek(px, fd, offset, whence).1.Failed? ==> Lseek(px, fd, offset, whence).0 == px
  {
    hide WriteAt;
  }

  /** From a to b no other descriptor's position has changed, no other file, nothing
      of the cache, and no descriptor has come or gone. */
  ghost predicate OnlyDescriptor(a: ProxyState, b: ProxyState, fd: nat) {
    && b.nextFd == a.nextFd && b.sessions.Keys == a.sessions.Keys
    && b.store == a.store.(disk := b.store.disk)
    && (forall g :: g in a.sessions ==> KeyOf(b.sessions[g], g) == KeyOf(a.sessions[g], g))
    && (forall g :: g in a.sessions && g != fd ==> b.sessions[g] == a.sessions[g])
    && (forall k :: FileOf(b.store.disk, k) == FileOf(a.store.disk, k)
          || (fd in a.sessions && k == KeyOf(a.sessions[fd], fd)))
  }

  // ---- unlink

  /** unlink is Done if and only if it takes a file away, and fails with ENOENT
      otherwise; only the files of the server change; a second one fails. */
  lemma UnlinkReplies(sv: ServerState, p: string)
    ensures var (sv', reply) := Unlink(sv, p);
      && (reply == Done <==> p in sv.files && p !in sv'.files)
      && (reply == Failed(ENOENT) <==> p !in sv.files)
      && sv' == ServerState(sv.files - {p}, sv.versions)
      && Unlink(sv', p) == (sv', Failed(ENOENT))
  {
    assert sv.files - {p} - {p} == sv.files - {p};
  }

  /** The call may make the file: it opens the path to create it, or closes a write
      descriptor of it. */
  predicate MayMake(px: ProxyState, call: Call, p: string) {
    match call
    case OpenCall(q, mode) => q == p && (mode == CREATE || mode == CREATE_NEW)
    case CloseCall(fd) => fd in px.sessions && px.sessions[fd].Writer? && px.sessions[fd].path == p
    case _ => false
  }

  lemma StaysAbsent(sv: ServerState, px: ProxyState, max: int, call: Call, p: string)
    requires ServerOk(sv) && p !in sv.files && !MayMake(px, call, p)
    ensures p !in Invoke(sv, px, max, call).server.files
  {
    hide Open;
    hide Reserve;
    hide FileServer.Push;
    match call {
      case OpenCall(q, mode) => OpenReplies(sv, px, max, q, mode);
      case CloseCall(fd) =>
        if fd in px.sessions && px.sessions[fd].Writer? {
          PushMakesOnly(sv, px.sessions[fd].path, FileOf(px.store.disk, KeyOf(px.sessions[fd], fd)), 0);
        }
      case _ =>
    }
  }

  lemma {:induction false} PushMakesOnly(sv: ServerState, p: string, data: Content, pos: nat)
    ensures Push(sv, p, data, pos).server.files.Keys <= sv.files.Keys + {p}
    decreases |data| - pos
  {
    hide WriteAt;
    if pos < |data| {
      var u := Update(sv, p, ChunkAt(data, pos), pos);
      if u.ok {
        PushMakesOnly(u.server, p, data, pos + |ChunkAt(data, pos)|);
      }
    }
  }

  /** No event from step m on may make the file. */
  predicate NeverMade(sys: System, events: seq<Event>, m: nat, p: string)
    requires Sized(sys) && Addressed(sys, events)
  {
    forall n :: m <= n < |events| ==>
      !MayMake(Run(sys, events[..n]).proxies[events[n].proxy], events[n].call, p)
  }

  lemma {:induction false} AbsentOver(sys: System, events: seq<Event>, m: nat, p: string)
    requires Initial(sys) && Addressed(sys, events) && m <= |events|
    requires p !in Run(sys, events[..m]).server.files && NeverMade(sys, events, m, p)
    ensures p !in Run(sys, events).server.files
    decreases |events|
  {
    hide Run;
    hide Invoke;
    hide MayMake;
    hide SystemSound;
    if m == |events| {
      assert events[..m] == events;
    } else {
      var front, last := events[..|events| - 1], events[|events| - 1];
      assert events == front + [last];
      assert forall n :: 0 <= n <= |front| ==> front[..n] == events[..n];
      AbsentOver(sys, front, m, p);
      RunsAreSound(sys, front);
      StepIsLast(sys, front, last);
      var mid := Run(sys, front);
      SoundHasOk(mid);
      StaysAbsent(mid.server, mid.proxies[last.proxy], mid.budgets[last.proxy], last.call, p);
    }
  }

  lemma SoundHasOk(sys: System)
    requires SystemSound(sys)
    ensures Sized(sys) && ServerOk(sys.server)
  {
  }

  /** Over every run: once a path was unlinked, and as long as nothing may have made
      the file again, a read open at any proxy without an entry spelled like the
      path fails with ENOENT, and so does another unlink. */
  lemma UnlinkedStaysUnlinked(sys: System, events: seq<Event>, m: nat, p: string, j: nat)
    requires Initial(sys) && Addressed(sys, events) && j < |sys.proxies|
    requires m < |events| && events[m].call == UnlinkCall(p) && NeverMade(sys, events, m + 1, p)
    ensures var end := Run(sys, events);
      && (!IsSpelled(end.proxies[j], p) ==> Respond(end, Event(j, OpenCall(p, READ))).reply == Failed(ENOENT))
      && Respond(end, Event(j, UnlinkCall(p))).reply == Failed(ENOENT)
  {
    hide Run;
    hide NeverMade;
    hide Open;
    assert events[..m + 1] == events[..m] + [events[m]];
    StepIsLast(sys, events[..m], events[m]);
    UnlinkReplies(Run(sys, events[..m]).server, p);
    AbsentOver(sys, events, m + 1, p);
    RunsAreSound(sys, events);
    var end := Run(sys, events);
    SoundHasOk(end);
    OpenReplies(end.server, end.proxies[j], end.budgets[j], p, READ);
    UnlinkReplies(end.server, p);
  }

  // ---- over every run

  /** After every run an open answers as above, at every proxy and in every mode. */
  lemma OpensReply(sys: System, events: seq<Event>, i: nat, p: string, mode: OpenMode)
    requires Initial(sys) && Addressed(sys, events) && i < |sys.proxies|
    ensures var end := Run(sys, events); var px, o := end.proxies[i], Respond(end, Event(i, OpenCall(p, mode)));
      && (o.reply == Thrown || o.reply == OpenReply(end.server, px, p, mode))
      && (OpenError(end.server, px, p, mode).Some? ==> o.reply == OpenReply(end.server, px, p, mode) && o.proxy == px)
      && o.server == ServerAfterOpen(end.server, px, p, mode)
      && px.nextFd !in px.sessions
  {
    RunsAreSound(sys, events);
    hide Run;
    hide Open;
    var end := Run(sys, events);
    assert Sound(end.proxies[i]);
    FdsAreNew(end.proxies[i]);
    OpenReplies(end.server, end.proxies[i], end.budgets[i], p, mode);
  }

  /** In a civil run without exception: READ and WRITE fail exactly when the server
      lacks the file, CREATE never, CREATE_NEW exactly when the server has the file
      or version 1 of it is cached. */
  lemma CivilOpensReply(sys: System, events: seq<Event>, paths: set<string>, i: nat, p: string, mode: OpenMode)
    requires Initial(sys) && Addressed(sys, events) && PrefixFree(paths) && CivilRun(sys, events, paths)
    requires i < |sys.proxies| && p in paths
    ensures var end := Run(sys, events); var px, reply := end.proxies[i], Respond(end, Event(i, OpenCall(p, mode))).reply;
      reply == match mode
        case READ => if p in end.server.files then Opened(px.nextFd) else Failed(ENOENT)
        case WRITE => if p in end.server.files then Opened(px.nextFd) else Failed(ENOENT)
        case CREATE => Opened(px.nextFd)
        case CREATE_NEW =>
          if p in end.server.files || Shared(p, 1) in px.store.order then Failed(EEXIST) else Opened(px.nextFd)
  {
    RunsAreNeat(sys, events, paths);
    hide Run;
    hide Open;
    hide Render;
    hide Sound;
    var end := Run(sys, events);
    var px := end.proxies[i];
    assert Neat(end.server, px, paths);
    OpenReplies(end.server, px, end.budgets[i], p, mode);
    OpenNeat(end.server, px, end.budgets[i], paths, p, mode);
    if IsSpelled(px, p) {
      NoPathSpellsAKey(paths, p, Spelled(px.store.order, p).value);
    }
  }

  // ---- private copies are there

  /** Every write descriptor has its private copy, and the next one has none yet. */
  ghost predicate HaveCopies(px: ProxyState) {
    && (forall fd :: fd in px.sessions && px.sessions[fd].Writer? ==> KeyOf(px.sessions[fd], fd) in px.store.disk)
    && (forall k :: k in px.store.disk && k.Private? ==> k.fd < px.nextFd)
  }

  // The private copies of other descriptors outlast a shedding of unpinned entries.
  lemma CopiesOutlast(px: ProxyState, st: Store)
    requires Sound(px) && HaveCopies(px)
    requires forall x :: x in px.store.disk && CacheSpec.Pins(px.store, x) > 0 ==> x in st.disk
    requires forall x: Key :: x in st.disk && x.Private? ==> x in px.store.disk || x.fd < px.nextFd
    ensures HaveCopies(px.(store := st))
  {
    forall fd | fd in px.sessions && px.sessions[fd].Writer? ensures KeyOf(px.sessions[fd], fd) in st.disk {
      OpenPins(px, fd);
    }
  }

  lemma GrantWriterCopies(px: ProxyState, max: int, p: string, v: nat, base: Content)
    requires Sound(px) && HaveCopies(px)
    ensures HaveCopies(GrantWriter(px, max, p, v, base))
  {
    hide Put;
    hide Overlay;
    var k := Private(p, v, px.nextFd);
    var st1 := px.store.(disk := px.store.disk[k := Overlay(FileOf(px.store.disk, k), base)]);
    NewIsUnpinned(px, p, v);
    SoundIsNoDup(px);
    PutSheds(st1, max, k);
    PutPrunes(st1, max, k);
    CopiesJoin(px, Put(st1, max, k).store, p, v);
  }

  lemma CopiesJoin(px: ProxyState, st: Store, p: string, v: nat)
    requires Sound(px) && HaveCopies(px)
    requires forall x :: x in px.store.disk && CacheSpec.Pins(px.store, x) > 0 ==> x in st.disk
    requires var k := Private(p, v, px.nextFd); k in st.disk && forall x :: x in st.disk ==> x in px.store.disk || x == k
    ensures HaveCopies(ProxyState(AddClient(st, Private(p, v, px.nextFd)), px.sessions[px.nextFd := Writer(p, v, 0)], px.nextFd + 1))
  {
    forall fd | fd in px.sessions && px.sessions[fd].Writer? ensures KeyOf(px.sessions[fd], fd) in st.disk {
      OpenPins(px, fd);
    }
  }

  lemma FetchCopies(px: ProxyState, max: int, k: Key, bytes: Content)
    requires Sound(px) && HaveCopies(px) && k.Shared?
    ensures HaveCopies(px.(store := Fetch(px.store, max, k, bytes).store))
  {
    hide Put;
    SoundIsNoDup(px);
    var st1 := px.store.(disk := px.store.disk[k := Overlay(FileOf(px.store.disk, k), bytes)]);
    PutSheds(st1, max, k);
    PutPrunes(st1, max, k);
    CopiesOutlast(px, Put(st1, max, k).store);
  }

  lemma OpenCopies(sv: ServerState, px: ProxyState, max: int, p: string, mode: OpenMode)
    requires ServerOk(sv) && Sound(px) && HaveCopies(px)
    ensures HaveCopies(Open(sv, px, max, p, mode).proxy)
  {
    hide Fetch;
    hide GrantWriter;
    hide Spelled;
    hide Sound;
    hide HaveCopies;
    var ver := Ver(sv, p);
    assert p in sv.files ==> ver > 0;
    var hit := Hit(px.store.order, p, ver);
    if hit.Some? {
      var touched := px.(store := Touch(px.store, hit.value));
      SoundIsNoDup(px);
      TouchSheds(px.store, hit.value);
      ShedsSound(px, touched.store, None);
      SameCopies(px, touched);
      GrantWriterCopies(touched, max, p, ver, FileOf(px.store.disk, hit.value));
      ReaderCopies(touched, hit.value);
    } else {
      var v, bytes := if ver == 0 then 1 else ver, FileBytes(Create(Lookup(sv, p), p), p);
      var k := Shared(p, v);
      FetchMoves(px, max, k, bytes);
      FetchCopies(px, max, k, bytes);
      var px1 := px.(store := Fetch(px.store, max, k, bytes).store);
      GrantWriterCopies(px1, max, p, v, Overlay(FileOf(px.store.disk, k), bytes));
      ReaderCopies(px1, k);
    }
  }

  lemma SameCopies(a: ProxyState, b: ProxyState)
    requires HaveCopies(a) && a.sessions == b.sessions && b.store.disk == a.store.disk && b.nextFd == a.nextFd
    ensures HaveCopies(b)
  {
  }

  lemma ReaderCopies(px: ProxyState, k: Key)
    requires HaveCopies(px)
    ensures HaveCopies(GrantReader(px, k))
  {
  }

  lemma CloseReaderCopies(px: ProxyState, fd: nat)
    requires Sound(px) && HaveCopies(px) && fd in px.sessions && px.sessions[fd].Reader?
    ensures HaveCopies(CloseReader(px, fd, px.sessions[fd].key).0)
  {
    hide CheckStale;
    hide Touch;
    hide Balanced;
    hide Sound;
    var k := px.sessions[fd].key;
    SoundIsNoDup(px);
    TouchSheds(px.store, k);
    var st1 := Unpin(Touch(px.store, k), k);
    SweepSheds(st1, k);
    var st2 := CheckStale(st1, k).store;
    SweepSheds(st2, k);
    CheckStalePrunes(st1, k);
    CheckStalePrunes(st2, k);
    var px' := CloseReader(px, fd, k).0;
    assert px'.sessions == px.sessions - {fd} && px'.nextFd == px.nextFd;
    TouchKeepsDisk(px.store, k);
    var st3 := CheckStale(st2, k).store;
    assert px'.store == st3 || px'.store == st2;
    forall g | g in px'.sessions && px'.sessions[g].Writer? ensures KeyOf(px'.sessions[g], g) in px'.store.disk {
      OnlyOneUnpinned(px, fd, g);
      SamePins(px.store, Touch(px.store, k), k, KeyOf(px.sessions[g], g));
    }
  }

  lemma TouchKeepsDisk(st: Store, k: Key)
    ensures Touch(st, k).disk == st.disk
  {
  }

  lemma SamePins(a: Store, b: Store, k: Key, x: Key)
    requires b.clients == a.clients
    ensures CacheSpec.Pins(Unpin(b, k), x) == CacheSpec.Pins(Unpin(a, k), x)
  {
  }

  // Unpinning a read descriptor's entry leaves a write descriptor's pinned.
  lemma OnlyOneUnpinned(px: ProxyState, fd: nat, g: nat)
    requires Sound(px) && fd in px.sessions && px.sessions[fd].Reader? && g in px.sessions && px.sessions[g].Writer?
    ensures CacheSpec.Pins(Unpin(px.store, px.sessions[fd].key), KeyOf(px.sessions[g], g)) > 0
  {
    var k := KeyOf(px.sessions[g], g);
    assert IsWriter(px.sessions, k);
    if px.sessions[fd].key == k {
      assert fd in ReadersOf(px.sessions, k);
    }
  }

  lemma CloseWriterCopies(sv: ServerState, px: ProxyState, max: int, fd: nat)
    requires Sound(px) && HaveCopies(px) && fd in px.sessions && px.sessions[fd].Writer?
    ensures HaveCopies(CloseWriter(sv, px, max, fd, px.sessions[fd].path, px.sessions[fd].ver).proxy)
  {
    hide CloseWriter;
    hide Reserve;
    hide Sound;
    var s := px.sessions[fd];
    var r := Reserve(px.store, max, Shared(s.path, s.ver + 1)).store;
    SoundIsNoDup(px);
    ReserveSheds(px.store, max, Shared(s.path, s.ver + 1));
    ReservePrunes(px.store, max, Shared(s.path, s.ver + 1));
    CopiesOutlast(px, r);
    CloseWriterDisk(sv, px, max, fd);
  }

  // A write close keeps the reserved files; its own copy stays with its descriptor.
  lemma CloseWriterDisk(sv: ServerState, px: ProxyState, max: int, fd: nat)
    requires fd in px.sessions && px.sessions[fd].Writer?
    ensures var s := px.sessions[fd]; var px' := CloseWriter(sv, px, max, fd, s.path, s.ver).proxy;
      var r := Reserve(px.store, max, Shared(s.path, s.ver + 1)).store;
      || px' == px
      || (px'.nextFd == px.nextFd && px'.store.disk.Keys <= r.disk.Keys + {Shared(s.path, s.ver + 1)}
          && ((px'.sessions == px.sessions && r.disk.Keys <= px'.store.disk.Keys)
              || (px'.sessions == px.sessions - {fd} && r.disk.Keys - {KeyOf(s, fd)} <= px'.store.disk.Keys)))
  {
    hide Reserve;
    hide FileServer.Push;
    hide Overlay;
    hide WriteAt;
    hide Int32;
    hide Except;
  }

  lemma InvokeCopies(sv: ServerState, px: ProxyState, max: int, call: Call)
    requires ServerOk(sv) && Sound(px) && HaveCopies(px)
    ensures HaveCopies(Invoke(sv, px, max, call).proxy)
  {
    hide Open;
    hide ProxySpec.CloseReader;
    hide ProxySpec.CloseWriter;
    hide WriteAt;
    hide Sound;
    match call {
      case OpenCall(p, mode) => OpenCopies(sv, px, max, p, mode);
      case CloseCall(fd) =>
        if fd in px.sessions {
          match px.sessions[fd]
          case Reader(k, _) => CloseReaderCopies(px, fd);
          case Writer(p, v, _) => CloseWriterCopies(sv, px, max, fd);
        }
      case _ =>
    }
  }

  lemma {:induction false} RunsHaveCopies(sys: System, events: seq<Event>)
    requires Initial(sys) && Addressed(sys, events)
    ensures forall i :: 0 <= i < |sys.proxies| ==> HaveCopies(Run(sys, events).proxies[i])
  {
    hide Invoke;
    hide Sound;
    hide HaveCopies;
    if events == [] {
      assert HaveCopies(FRESH) by { FreshHasCopies(); }
    } else {
      var front, last := events[..|events| - 1], events[|events| - 1];
      RunsHaveCopies(sys, front);
      RunsAreSound(sys, front);
      var mid := Run(sys, front);
      InvokeCopies(mid.server, mid.proxies[last.proxy], mid.budgets[last.proxy], last.call);
    }
  }

  lemma FreshHasCopies()
    ensures HaveCopies(FRESH)
  {
  }

  /** Over every run an open that succeeds gives a descriptor on the bytes of the
      entry it hits, or on those it fetches. */
  lemma OpensShowTheirBytes(sys: System, events: seq<Event>, i: nat, p: string, mode: OpenMode)
    requires Initial(sys) && Addressed(sys, events) && i < |sys.proxies|
    ensures var end := Run(sys, events); var px, o := end.proxies[i], Respond(end, Event(i, OpenCall(p, mode)));
      o.reply.Opened? ==>
        o.reply.fd in o.proxy.sessions
        && FileOf(o.proxy.store.disk, KeyOf(o.proxy.sessions[o.reply.fd], o.reply.fd)) == OpenBytes(end.server, px, p)
  {
    RunsHaveCopies(sys, events);
    RunsAreSound(sys, events);
    hide Run;
    hide Open;
    hide Sound;
    hide HaveCopies;
    var end := Run(sys, events);
    OpenContents(end.server, end.proxies[i], end.budgets[i], p, mode);
  }

  lemma WriterWithCopyReplies(sv: ServerState, px: ProxyState, max: int, fd: nat, buf: Content)
    requires HaveCopies(px) && fd in px.sessions && px.sessions[fd].Writer?
    ensures Write(px, fd, buf).1 == Count(|buf|)
    ensures var s := px.sessions[fd];
      Close(sv, px, max, fd).reply ==
        if Reserve(px.store, max, Shared(s.path, s.ver + 1)).ok
          && (FileOf(px.store.disk, KeyOf(s, fd)) == [] || s.path in sv.versions) then Done else Thrown
  {
    hide Reserve;
    hide WriteAt;
    hide Close;
    CloseReplies(sv, px, max, fd);
  }

  /** Over every run the private copy of an open write descriptor is there, so its
      writes and seeks do not fail for want of it, and its close is never answered
      with ENOENT: it is Done unless the reservation raises or something is to be
      pushed without a version entry. */
  lemma WritersReply(sys: System, events: seq<Event>, i: nat, fd: nat, buf: Content)
    requires Initial(sys) && Addressed(sys, events) && i < |sys.proxies|
    requires fd in Run(sys, events).proxies[i].sessions && Run(sys, events).proxies[i].sessions[fd].Writer?
    ensures var end := Run(sys, events); var px := end.proxies[i]; var s := px.sessions[fd];
      && Respond(end, Event(i, WriteCall(fd, buf))).reply == Count(|buf|)
      && Respond(end, Event(i, CloseCall(fd))).reply ==
           if Reserve(px.store, end.budgets[i], Shared(s.path, s.ver + 1)).ok
             && (FileOf(px.store.disk, KeyOf(s, fd)) == [] || s.path in end.server.versions) then Done else Thrown
  {
    RunsHaveCopies(sys, events);
    hide Run;
    hide Reserve;
    hide Close;
    hide Write;
    hide HaveCopies;
    var end := Run(sys, events);
    WriterWithCopyReplies(end.server, end.proxies[i], end.budgets[i], fd, buf);
  }
}
