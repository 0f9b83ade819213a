/** Runs in which no opened path is a proper prefix of another, nothing is
    unlinked, and a close with something to send finds a version entry: no call
    raises an exception, the cache directory holds the cached entries and nothing
    else, and the accounting has its plain form. */
module Civil {
  import opened Options
  import opened Bytes
  import opened CacheKeys
  import opened CacheSpec
  import opened FileServer
  import opened ProxySpec
  import opened Coherence
  import opened Pins

  // ---- the invariant of one proxy

  /** Order and directory match, but for one key perhaps. */
  ghost predicate Matched(st: Store, but: Option<Key>) {
    forall x :: Some(x) != but ==> (x in st.order <==> x in st.disk)
  }

  ghost predicate PathsIn(st: Store, paths: set<string>) {
    forall k :: k in st.order ==> k.path in paths
  }

  /** The directory is the cache; read descriptors have shared files; a cached
      private copy has its descriptor; paths are known, and on the server. */
  ghost predicate Neat(sv: ServerState, px: ProxyState, paths: set<string>) {
    && Sound(px) && Matched(px.store, None) && PathsIn(px.store, paths)
    && (forall k :: k in px.store.order ==> k.path in sv.files)
    && (forall fd :: fd in px.sessions && px.sessions[fd].Reader? ==> px.sessions[fd].key.Shared?)
    && (forall k :: k in px.store.order && k.Private? ==> IsWriter(px.sessions, k))
  }

  lemma SweepMatched(st: Store, paths: set<string>, name: Key, but: Option<Key>)
    requires NoDup(st.order) && Matched(st, but) && PrefixFree(paths) && PathsIn(st, paths)
    requires name.Shared? && name.path in paths
    ensures var r := CheckStale(st, name);
      && r.ok && Matched(r.store, but) && NoDup(r.store.order)
      && forall x :: x in r.store.order ==> x in st.order
  {
    hide CheckStale;
    hide Total;
    hide Except;
    StaleRemovalIsExact(st, paths, name.path, name.ver);
    RemovalKeeps(st, OtherVersions(st, name.path, name.ver));
  }

  lemma PutMatched(st: Store, max: int, paths: set<string>, k: Key)
    requires NoDup(st.order) && Matched(st, Some(k)) && PrefixFree(paths) && PathsIn(st, paths) && k.path in paths
    ensures var r := Put(st, max, k);
      && r.ok && Matched(r.store, Some(k)) && NoDup(r.store.order) && k in r.store.order
      && (forall x :: x in r.store.order ==> x in st.order || x == k)
      && (k !in st.order && k in st.disk ==> k in r.store.disk)
  {
    hide Total;
    hide Except;
    hide Evict;
    assert Put(st, max, k).ok by {
      if k.Shared? {
        SweepMatched(Charge(st, k), paths, k, Some(k));
      }
    }
    hide Put;
    var _ := PutKeeps(st, max, k);
  }

  // ---- open

  lemma FetchNeat(sv: ServerState, px: ProxyState, max: int, paths: set<string>, k: Key, bytes: Content)
    requires Neat(sv, px, paths) && PrefixFree(paths) && k.Shared? && k.path in paths && k.path in sv.files
    requires k !in px.store.order
    ensures var r := Fetch(px.store, max, k, bytes);
      r.ok && Neat(sv, px.(store := r.store), paths) && k in r.store.order
  {
    hide Put;
    hide Overlay;
    FetchMoves(px, max, k, bytes);
    hide Sound;
    SoundIsNoDup(px);
    PutMatched(px.store.(disk := px.store.disk[k := Overlay(FileOf(px.store.disk, k), bytes)]), max, paths, k);
  }

  lemma GrantReaderNeat(sv: ServerState, px: ProxyState, paths: set<string>, k: Key)
    requires Neat(sv, px, paths) && k in px.store.order && k.Shared?
    ensures Neat(sv, GrantReader(px, k), paths)
  {
    hide Balanced;
    hide Stable;
    hide Sound;
    GrantReaderMoves(px, k);
    FdsAreNew(px);
    hide Sound;
    forall x | x in px.store.order && x.Private? ensures IsWriter(GrantReader(px, k).sessions, x) {
      assert IsWriter(px.sessions, x);
    }
  }

  lemma FdsAreNew(px: ProxyState)
    requires Sound(px)
    ensures px.nextFd !in px.sessions && forall k :: k in px.store.order && k.Private? ==> k.fd < px.nextFd
  {
  }

  lemma GrantWriterNeat(sv: ServerState, px: ProxyState, max: int, paths: set<string>, p: string, v: nat, base: Content)
    requires Neat(sv, px, paths) && PrefixFree(paths) && p in paths && p in sv.files
    ensures Neat(sv, GrantWriter(px, max, p, v, base), paths)
  {
    hide Balanced;
    hide Stable;
    hide Sound;
    hide Put;
    hide Overlay;
    GrantWriterMoves(px, max, p, v, base);
    FdsAreNew(px);
    SoundIsNoDup(px);
    hide Sound;
    var k := Private(p, v, px.nextFd);
    PutMatched(px.store.(disk := px.store.disk[k := Overlay(FileOf(px.store.disk, k), base)]), max, paths, k);
    var px' := GrantWriter(px, max, p, v, base);
    forall x | x in px'.store.order && x.Private? ensures IsWriter(px'.sessions, x) {
      assert x != k ==> IsWriter(px.sessions, x);
    }
  }

  lemma TouchNeat(sv: ServerState, px: ProxyState, paths: set<string>, k: Key)
    requires Neat(sv, px, paths) && k in px.store.order
    ensures Neat(sv, px.(store := Touch(px.store, k)), paths) && k in Touch(px.store, k).order
  {
    SoundIsNoDup(px);
    TouchSheds(px.store, k);
    ShedsSound(px, Touch(px.store, k), None);
    hide Sound;
    InExcept(px.store.order, {k});
  }

  lemma OpenNeat(sv: ServerState, px: ProxyState, max: int, paths: set<string>, p: string, mode: OpenMode)
    requires ServerOk(sv) && Neat(sv, px, paths) && PrefixFree(paths) && p in paths
    ensures var o := Open(sv, px, max, p, mode); o.reply != Thrown && Neat(o.server, o.proxy, paths)
  {
    hide Fetch;
    hide GrantWriter;
    hide GrantReader;
    hide Touch;
    hide Sound;
    var ver, made := Ver(sv, p), Create(Lookup(sv, p), p);
    assert p in sv.files ==> ver > 0;
    var hit := Hit(px.store.order, p, ver);
    assert Neat(Lookup(sv, p), px, paths) && Neat(made, px, paths);
    if hit.Some? {
      if ver == 0 {
        NoPathSpellsAKey(paths, p, hit.value);
      } else {
        TouchNeat(Lookup(sv, p), px, paths, hit.value);
        var touched := px.(store := Touch(px.store, hit.value));
        GrantReaderNeat(Lookup(sv, p), touched, paths, hit.value);
        GrantWriterNeat(Lookup(sv, p), touched, max, paths, p, ver, FileOf(px.store.disk, hit.value));
      }
    } else {
      var v := if ver == 0 then 1 else ver;
      var k, bytes := Shared(p, v), FileBytes(made, p);
      assert k !in px.store.order;
      FetchNeat(made, px, max, paths, k, bytes);
      var px1 := px.(store := Fetch(px.store, max, k, bytes).store);
      GrantReaderNeat(made, px1, paths, k);
      GrantWriterNeat(made, px1, max, paths, p, v, Overlay(FileOf(px.store.disk, k), bytes));
    }
  }

  // ---- close

  lemma CloseReaderNeat(sv: ServerState, px: ProxyState, paths: set<string>, fd: nat)
    requires Neat(sv, px, paths) && PrefixFree(paths) && fd in px.sessions && px.sessions[fd].Reader?
    ensures var (px', reply) := CloseReader(px, fd, px.sessions[fd].key);
      reply == Done && Neat(sv, px', paths)
  {
    hide CheckStale;
    hide Touch;
    hide Sound;
    hide Matched;
    hide PathsIn;
    hide Balanced;
    hide Stable;
    var k := px.sessions[fd].key;
    CloseReaderMoves(px, fd);
    ReaderKeyCached(px, fd);
    TouchNeat(sv, px, paths, k);
    var st0 := Touch(px.store, k);
    var st1 := Unpin(st0, k);
    SoundIsNoDup(px.(store := st0));
    SameMatched(st0, st1, paths);
    SweepMatched(st1, paths, k, None);
    var st2 := CheckStale(st1, k).store;
    FewerPaths(st1, st2, paths);
    SweepMatched(st2, paths, k, None);
    DescriptorLeavesNeat(sv, px.(store := st0), px.(store := CheckStale(st2, k).store, sessions := px.sessions - {fd}), paths, fd);
  }

  lemma SameMatched(a: Store, b: Store, paths: set<string>)
    requires Matched(a, None) && PathsIn(a, paths) && b.order == a.order && b.disk == a.disk
    ensures Matched(b, None) && PathsIn(b, paths)
  {
  }

  lemma FewerPaths(a: Store, b: Store, paths: set<string>)
    requires PathsIn(a, paths) && forall x :: x in b.order ==> x in a.order
    ensures PathsIn(b, paths)
  {
  }

  // A descriptor has left; its private copy, if it had one, is not cached.
  lemma DescriptorLeavesNeat(sv: ServerState, px: ProxyState, px': ProxyState, paths: set<string>, fd: nat)
    requires Neat(sv, px, paths) && Sound(px') && Matched(px'.store, None)
    requires px'.sessions == px.sessions - {fd}
    requires forall x :: x in px'.store.order ==>
      && (x in px.store.order || (x.Shared? && x.path in paths && x.path in sv.files))
      && (fd in px.sessions && px.sessions[fd].Writer? ==> x != KeyOf(px.sessions[fd], fd))
    ensures Neat(sv, px', paths)
  {
    hide Sound;
    forall x | x in px'.store.order && x.Private? ensures IsWriter(px'.sessions, x) {
      assert IsWriter(px.sessions, x);
    }
  }

  lemma ReaderKeyCached(px: ProxyState, fd: nat)
    requires Sound(px) && fd in px.sessions && px.sessions[fd].Reader? && px.sessions[fd].key.Shared?
    ensures px.sessions[fd].key in px.store.order
  {
    OpenPins(px, fd);
  }

  lemma ReserveMatched(st: Store, max: int, paths: set<string>, k: Key)
    requires NoDup(st.order) && Matched(st, None) && PrefixFree(paths) && PathsIn(st, paths)
    requires k.Shared? && k.path in paths
    ensures var r := Reserve(st, max, k);
      && r.ok && Matched(r.store, Some(k)) && NoDup(r.store.order) && k in r.store.order
      && forall x :: x in r.store.order ==> x in st.order || x == k
  {
    hide Put;
    hide CheckStale;
    var made := st.(disk := st.disk[k := FileOf(st.disk, k)]);
    SweepMatched(made, paths, k, Some(k));
    PutMatched(CheckStale(made, k).store, max, paths, k);
  }

  lemma CloseWriterNeat(sv: ServerState, px: ProxyState, max: int, paths: set<string>, fd: nat)
    requires Neat(sv, px, paths) && PrefixFree(paths) && fd in px.sessions && px.sessions[fd].Writer?
    requires px.sessions[fd].path in sv.versions || FileOf(px.store.disk, KeyOf(px.sessions[fd], fd)) == []
    ensures var s := px.sessions[fd]; var o := CloseWriter(sv, px, max, fd, s.path, s.ver);
      o.reply == Done && sv.files.Keys <= o.server.files.Keys && Neat(o.server, o.proxy, paths)
  {
    hide CloseWriter;
    hide Int32;
    hide Reserve;
    hide FileServer.Push;
    hide RemoveWriter;
    hide Overlay;
    hide Sound;
    hide Balanced;
    hide Stable;
    hide CloseDebt;
    hide CloseLeaves;
    CloseWriterMoves(sv, px, max, fd);
    MineIsCached(px, fd);
    SoundIsNoDup(px);
    var s := px.sessions[fd];
    var mine, next := Private(s.path, s.ver, fd), Shared(s.path, s.ver + 1);
    var data := px.store.disk[mine];
    ReserveMatched(px.store, max, paths, next);
    PushMakesFiles(sv, s.path, data);
    var r := Reserve(px.store, max, next).store;
    MineSurvives(px, max, fd, next);
    FilledMatched(r, next, mine, data);
    var o := CloseWriter(sv, px, max, fd, s.path, s.ver);
    WriterDone(sv, px, max, fd, r);
    hide Matched;
    MoreFilesNeat(sv, o.server, px, paths);
    DescriptorLeavesNeat(o.server, px, o.proxy, paths, fd);
  }

  // Writing the reserved entry and dropping the private copy.
  lemma FilledMatched(r: Store, next: Key, mine: Key, data: Content)
    requires NoDup(r.order) && Matched(r, Some(next)) && next in r.order && mine in r.order && mine != next
    ensures var was := FileOf(r.disk, next);
      var f := r.(disk := r.disk[next := Overlay(was, data)], size := Int32(r.size + |data| - |was|));
      var b := RemoveWriter(f, mine);
      Matched(b, None) && forall x :: x in b.order <==> x in r.order && x != mine
  {
    hide Overlay;
    hide Int32;
    hide RemoveWriter;
    hide Balanced;
    var was := FileOf(r.disk, next);
    RemoveWriterParts(r.(disk := r.disk[next := Overlay(was, data)], size := Int32(r.size + |data| - |was|)), mine);
  }

  lemma MoreFilesNeat(sv: ServerState, sv': ServerState, px: ProxyState, paths: set<string>)
    requires Neat(sv, px, paths) && sv.files.Keys <= sv'.files.Keys
    ensures Neat(sv', px, paths)
  {
    hide Sound;
  }

  // The close of a write descriptor that meets no obstacle.
  lemma WriterDone(sv: ServerState, px: ProxyState, max: int, fd: nat, r: Store)
    requires fd in px.sessions && px.sessions[fd].Writer?
    requires var s := px.sessions[fd]; var mine := Private(s.path, s.ver, fd);
      && mine in px.store.disk && Reserve(px.store, max, Shared(s.path, s.ver + 1)) == Swept(r, true)
      && Push(sv, s.path, px.store.disk[mine], 0).ok
    ensures var s := px.sessions[fd]; var mine, next := Private(s.path, s.ver, fd), Shared(s.path, s.ver + 1);
      var data, was := px.store.disk[mine], FileOf(r.disk, next);
      var f := r.(disk := r.disk[next := Overlay(was, data)], size := Int32(r.size + |data| - |was|));
      CloseWriter(sv, px, max, fd, s.path, s.ver) == Outcome(Push(sv, s.path, data, 0).server,
        ProxyState(RemoveWriter(f, mine), px.sessions - {fd}, px.nextFd), Done)
  {
    hide Reserve;
    hide FileServer.Push;
    hide RemoveWriter;
    hide Overlay;
  }

  lemma MineSurvives(px: ProxyState, max: int, fd: nat, next: Key)
    requires Sound(px) && fd in px.sessions && px.sessions[fd].Writer?
    ensures KeyOf(px.sessions[fd], fd) in Reserve(px.store, max, next).store.order
  {
    hide Reserve;
    OpenPins(px, fd);
    MineIsCached(px, fd);
    ReserveSheds(px.store, max, next);
  }

  lemma PushMakesFiles(sv: ServerState, p: string, data: Content)
    requires data == [] || p in sv.versions
    ensures var u := Push(sv, p, data, 0); u.ok && sv.files.Keys <= u.server.files.Keys
  {
    if data != [] {
      WriteBack(sv, p, data);
    }
  }

  // ---- steps and runs

  /** The paths opened form a prefix-free set, nothing is unlinked, and a write
      descriptor with something to send is closed with a version entry. */
  predicate Civil(sys: System, e: Event, paths: set<string>) {
    && e.proxy < |sys.proxies|
    && var px := sys.proxies[e.proxy];
    match e.call
    case UnlinkCall(_) => false
    case OpenCall(p, _) => p in paths
    case CloseCall(fd) =>
      fd in px.sessions && px.sessions[fd].Writer? ==>
        px.sessions[fd].path in sys.server.versions || FileOf(px.store.disk, KeyOf(px.sessions[fd], fd)) == []
    case _ => true
  }

  predicate CivilRun(sys: System, events: seq<Event>, paths: set<string>)
    requires Sized(sys) && Addressed(sys, events)
  {
    forall i :: 0 <= i < |events| ==> Civil(Run(sys, events[..i]), events[i], paths)
  }

  lemma InvokeNeat(sys: System, e: Event, paths: set<string>)
    requires Sized(sys) && ServerOk(sys.server) && PrefixFree(paths) && Civil(sys, e, paths)
    requires Neat(sys.server, sys.proxies[e.proxy], paths)
    ensures var px, o := sys.proxies[e.proxy], Respond(sys, e);
      && sys.server.files.Keys <= o.server.files.Keys && Neat(o.server, o.proxy, paths)
      && (o.reply == Thrown ==> e.call.CloseCall? && e.call.fd !in px.sessions)
  {
    hide Open;
    hide ProxySpec.CloseReader;
    hide ProxySpec.CloseWriter;
    var sv, px, max := sys.server, sys.proxies[e.proxy], sys.budgets[e.proxy];
    InvokeMoves(sv, px, max, e.call);
    hide Sound;
    hide Moves;
    match e.call {
      case OpenCall(path, mode) =>
        OpenNeat(sv, px, max, paths, path, mode);
        OpenKeepsFiles(sv, px, max, path, mode);
      case CloseCall(fd) =>
        if fd in px.sessions {
          match px.sessions[fd]
          case Reader(k, _) => CloseReaderNeat(sv, px, paths, fd);
          case Writer(p, v, _) => CloseWriterNeat(sv, px, max, paths, fd);
        }
      case WriteCall(fd, buf) => WriteNeat(sv, px, paths, fd, buf);
      case ReadCall(fd, n) => ReadNeat(sv, px, paths, fd, n);
      case LseekCall(fd, offset, whence) => LseekNeat(sv, px, paths, fd, offset, whence);
      case UnlinkCall(_) =>
    }
  }

  lemma OpenKeepsFiles(sv: ServerState, px: ProxyState, max: int, p: string, mode: OpenMode)
    ensures sv.files.Keys <= Open(sv, px, max, p, mode).server.files.Keys
  {
    hide Fetch;
    hide GrantWriter;
    hide GrantReader;
    hide Hit;
  }

  lemma PositionNeat(sv: ServerState, px: ProxyState, paths: set<string>, fd: nat, pos: nat)
    requires Neat(sv, px, paths) && fd in px.sessions
    ensures Neat(sv, px.(sessions := px.sessions[fd := px.sessions[fd].(pos := pos)]), paths)
  {
    PositionMoves(px, fd, pos);
    hide Sound;
    forall x | x in px.store.order && x.Private? ensures IsWriter(px.sessions[fd := px.sessions[fd].(pos := pos)], x) {
      assert IsWriter(px.sessions, x);
    }
  }

  lemma WriteNeat(sv: ServerState, px: ProxyState, paths: set<string>, fd: nat, buf: Content)
    requires Neat(sv, px, paths)
    ensures Neat(sv, Write(px, fd, buf).0, paths)
  {
    hide Sound;
    hide Balanced;
    hide Stable;
    hide WriteAt;
    if fd in px.sessions && px.sessions[fd].Writer? && KeyOf(px.sessions[fd], fd) in px.store.disk {
      var s, k := px.sessions[fd], KeyOf(px.sessions[fd], fd);
      var file := WriteAt(px.store.disk[k], s.pos, buf);
      PrivateFileMoves(px, fd, file);
      MineIsCached(px, fd);
      PositionNeat(sv, px.(store := px.store.(disk := px.store.disk[k := file])), paths, fd, s.pos + |buf|);
    }
  }

  lemma ReadNeat(sv: ServerState, px: ProxyState, paths: set<string>, fd: nat, n: nat)
    requires Neat(sv, px, paths)
    ensures Neat(sv, Read(px, fd, n).0, paths)
  {
    hide Neat;
    if fd in px.sessions {
      var s := px.sessions[fd];
      if KeyOf(s, fd) in px.store.disk {
        PositionNeat(sv, px, paths, fd, s.pos + |Slice(px.store.disk[KeyOf(s, fd)], s.pos, n)|);
      }
    }
  }

  lemma LseekNeat(sv: ServerState, px: ProxyState, paths: set<string>, fd: nat, offset: int, whence: Whence)
    requires Neat(sv, px, paths)
    ensures Neat(sv, Lseek(px, fd, offset, whence).0, paths)
  {
    hide Neat;
    var (px', reply) := Lseek(px, fd, offset, whence);
    if reply.Count? {
      PositionNeat(sv, px, paths, fd, reply.n);
    }
  }

  ghost predicate SystemNeat(sys: System, paths: set<string>) {
    && Sized(sys) && ServerOk(sys.server)
    && forall i :: 0 <= i < |sys.proxies| ==> Neat(sys.server, sys.proxies[i], paths)
  }

  lemma StepNeat(sys: System, e: Event, paths: set<string>)
    requires SystemNeat(sys, paths) && PrefixFree(paths) && Civil(sys, e, paths)
    ensures SystemNeat(Step(sys, e), paths)
  {
    hide Invoke;
    hide Sound;
    InvokeNeat(sys, e, paths);
    InvokeServerOk(sys.server, sys.proxies[e.proxy], sys.budgets[e.proxy], e.call);
  }

  lemma FrontIsCivil(sys: System, events: seq<Event>, paths: set<string>)
    requires Sized(sys) && Addressed(sys, events) && events != [] && CivilRun(sys, events, paths)
    ensures CivilRun(sys, events[..|events| - 1], paths)
    ensures Civil(Run(sys, events[..|events| - 1]), events[|events| - 1], paths)
  {
    hide Civil;
    hide Step;
    hide Run;
    var front := events[..|events| - 1];
    forall i | 0 <= i < |front| ensures Civil(Run(sys, front[..i]), front[i], paths) {
      assert front[..i] == events[..i];
    }
  }

  lemma {:induction false} RunsAreNeat(sys: System, events: seq<Event>, paths: set<string>)
    requires Initial(sys) && Addressed(sys, events) && PrefixFree(paths) && CivilRun(sys, events, paths)
    ensures SystemNeat(Run(sys, events), paths)
  {
    hide Step;
    hide SystemNeat;
    hide Civil;
    if events == [] {
      StartIsNeat(sys, paths);
    } else {
      var front := events[..|events| - 1];
      FrontIsCivil(sys, events, paths);
      RunsAreNeat(sys, front, paths);
      StepNeat(Run(sys, front), events[|events| - 1], paths);
    }
  }

  lemma StartIsNeat(sys: System, paths: set<string>)
    requires Initial(sys)
    ensures SystemNeat(sys, paths)
  {
    StartIsSound(sys);
    hide Sound;
  }

  /** In a civil run no call raises an exception but the close of an unknown
      descriptor. */
  lemma NothingIsThrown(sys: System, events: seq<Event>, paths: set<string>, n: nat)
    requires Initial(sys) && Addressed(sys, events) && PrefixFree(paths) && CivilRun(sys, events, paths) && n < |events|
    ensures var mid := Run(sys, events[..n]);
      Respond(mid, events[n]).reply == Thrown ==>
        events[n].call.CloseCall? && events[n].call.fd !in mid.proxies[events[n].proxy].sessions
  {
    hide Respond;
    hide Civil;
    var front := events[..n];
    assert forall i :: 0 <= i < n ==> front[..i] == events[..i];
    RunsAreNeat(sys, front, paths);
    InvokeNeat(Run(sys, front), events[n], paths);
  }

  // ---- stale versions do not stay

  /** No other version of the path is cached, but those that descriptors hold. */
  ghost predicate NoOtherVersion(st: Store, p: string, v: nat) {
    forall k :: k in st.order && k.Shared? && k.path == p && k.ver != v ==> CacheSpec.Pins(st, k) > 0
  }

  lemma FewerKeepsNone(a: Store, b: Store, p: string, v: nat)
    requires NoOtherVersion(a, p, v)
    requires forall k: Key :: k in b.order && k.Shared? ==> k in a.order && CacheSpec.Pins(b, k) >= CacheSpec.Pins(a, k)
    ensures NoOtherVersion(b, p, v)
  {
  }

  lemma PutClears(st: Store, max: int, paths: set<string>, p: string, v: nat)
    requires NoDup(st.order) && PrefixFree(paths) && p in paths && PathsIn(st, paths)
    ensures Put(st, max, Shared(p, v)).ok && NoOtherVersion(Put(st, max, Shared(p, v)).store, p, v)
  {
    hide Put;
    PutLeavesNoOtherVersion(st, max, paths, p, v);
    PutSheds(st, max, Shared(p, v));
    hide Render;
  }

  lemma SweepClears(st: Store, paths: set<string>, p: string, v: nat)
    requires NoDup(st.order) && PrefixFree(paths) && p in paths && PathsIn(st, paths)
    ensures NoOtherVersion(CheckStale(st, Shared(p, v)).store, p, v)
  {
    hide CheckStale;
    hide Total;
    StaleRemovalIsExact(st, paths, p, v);
    RemovalKeeps(st, OtherVersions(st, p, v));
  }

  lemma GrantWriterClears(px: ProxyState, max: int, p: string, v: nat, base: Content)
    requires Sound(px) && NoOtherVersion(px.store, p, v)
    ensures NoOtherVersion(GrantWriter(px, max, p, v, base).store, p, v)
  {
    hide Put;
    hide Overlay;
    hide NoOtherVersion;
    var k := Private(p, v, px.nextFd);
    var st1 := px.store.(disk := px.store.disk[k := Overlay(FileOf(px.store.disk, k), base)]);
    SoundIsNoDup(px);
    hide Sound;
    PutSheds(st1, max, k);
    var r := Put(st1, max, k).store;
    assert forall x: Key :: x in r.order && x.Shared? ==> x in px.store.order;
    assert forall x :: CacheSpec.Pins(r, x) == CacheSpec.Pins(st1, x) == CacheSpec.Pins(px.store, x);
    FewerKeepsNone(px.store, r, p, v);
    FewerKeepsNone(r, AddClient(r, k), p, v);
  }

  lemma MissClears(sv: ServerState, px: ProxyState, max: int, paths: set<string>, p: string, mode: OpenMode)
    requires ServerOk(sv) && Neat(sv, px, paths) && PrefixFree(paths) && p in paths
    requires Fetched(sv, px, p, mode).Some?
    ensures NoOtherVersion(Open(sv, px, max, p, mode).proxy.store, p, Fetched(sv, px, p, mode).value.ver)
  {
    hide Put;
    hide GrantWriter;
    hide Spelled;
    hide NoOtherVersion;
    hide Overlay;
    var k, bytes := Fetched(sv, px, p, mode).value, FileBytes(sv, p);
    assert k == Shared(p, k.ver);
    var file := Overlay(FileOf(px.store.disk, k), bytes);
    var st1 := px.store.(disk := px.store.disk[k := file]);
    SoundIsNoDup(px);
    assert p in sv.files ==> Ver(sv, p) > 0;
    assert k in px.store.order ==> bytes == [];
    FetchMoves(px, max, k, bytes);
    hide Sound;
    PutClears(st1, max, paths, p, k.ver);
    var px1 := px.(store := Put(st1, max, k).store);
    GrantWriterClears(px1, max, p, k.ver, file);
    FewerKeepsNone(px1.store, GrantReader(px1, k).store, p, k.ver);
    assert FileBytes(Create(Lookup(sv, p), p), p) == bytes && FileBytes(Lookup(sv, p), p) == bytes;
    hide FileBytes;
  }

  lemma CloseReaderClears(sv: ServerState, px: ProxyState, paths: set<string>, fd: nat)
    requires Neat(sv, px, paths) && PrefixFree(paths) && fd in px.sessions && px.sessions[fd].Reader?
    ensures var k := px.sessions[fd].key; NoOtherVersion(CloseReader(px, fd, k).0.store, k.path, k.ver)
  {
    hide CheckStale;
    hide Touch;
    hide NoOtherVersion;
    hide Matched;
    hide Sound;
    var k := px.sessions[fd].key;
    ReaderKeyCached(px, fd);
    TouchNeat(sv, px, paths, k);
    var st1 := Unpin(Touch(px.store, k), k);
    SoundIsNoDup(px.(store := Touch(px.store, k)));
    SameMatched(Touch(px.store, k), st1, paths);
    SweepMatched(st1, paths, k, None);
    var st2 := CheckStale(st1, k).store;
    FewerPaths(st1, st2, paths);
    SweepClears(st2, paths, k.path, k.ver);
    CloseReaderNeat(sv, px, paths, fd);
    SweepMatched(st2, paths, k, None);
  }

  lemma CloseWriterClears(sv: ServerState, px: ProxyState, max: int, paths: set<string>, fd: nat)
    requires Neat(sv, px, paths) && PrefixFree(paths) && fd in px.sessions && px.sessions[fd].Writer?
    requires px.sessions[fd].path in sv.versions || FileOf(px.store.disk, KeyOf(px.sessions[fd], fd)) == []
    ensures var s := px.sessions[fd];
      NoOtherVersion(CloseWriter(sv, px, max, fd, s.path, s.ver).proxy.store, s.path, s.ver + 1)
  {
    hide CloseWriter;
    hide Reserve;
    hide FileServer.Push;
    hide Overlay;
    hide NoOtherVersion;
    hide Int32;
    MineIsCached(px, fd);
    SoundIsNoDup(px);
    hide Sound;
    var s := px.sessions[fd];
    var mine, next := Private(s.path, s.ver, fd), Shared(s.path, s.ver + 1);
    var data := px.store.disk[mine];
    ReserveMatched(px.store, max, paths, next);
    ReserveClears(px.store, max, paths, s.path, s.ver + 1);
    PushMakesFiles(sv, s.path, data);
    var r := Reserve(px.store, max, next).store;
    var was := FileOf(r.disk, next);
    var f := r.(disk := r.disk[next := Overlay(was, data)], size := Int32(r.size + |data| - |was|));
    WriterDone(sv, px, max, fd, r);
    InExcept(f.order, {mine});
    FewerKeepsNone(r, RemoveWriter(f, mine), s.path, s.ver + 1);
  }

  lemma ReserveClears(st: Store, max: int, paths: set<string>, p: string, v: nat)
    requires NoDup(st.order) && Matched(st, None) && PrefixFree(paths) && PathsIn(st, paths) && p in paths
    ensures NoOtherVersion(Reserve(st, max, Shared(p, v)).store, p, v)
  {
    hide Put;
    hide CheckStale;
    hide NoOtherVersion;
    var k := Shared(p, v);
    var made := st.(disk := st.disk[k := FileOf(st.disk, k)]);
    SweepMatched(made, paths, k, Some(k));
    PutClears(CheckStale(made, k).store, max, paths, p, v);
  }

  /** The path and version a call clears other versions of: an open that fetches, a
      close of a read descriptor, and one of a write descriptor for the version it
      makes. */
  function Clears(sv: ServerState, px: ProxyState, call: Call): Option<(string, nat)> {
    match call
    case OpenCall(p, mode) =>
      (match Fetched(sv, px, p, mode)
       case None => None
       case Some(k) => Some((p, k.ver)))
    case CloseCall(fd) =>
      if fd !in px.sessions then None
      else (match px.sessions[fd]
        case Reader(k, _) => Some((k.path, k.ver))
        case Writer(p, v, _) => Some((p, v + 1)))
    case _ => None
  }

  /** Over every civil run: right after such a call no other version of the path is
      left at that proxy, cached or on disk, but those that descriptors hold. */
  lemma NoStaleVersionStays(sys: System, events: seq<Event>, paths: set<string>, e: Event)
    requires Initial(sys) && Addressed(sys, events) && PrefixFree(paths) && CivilRun(sys, events, paths)
    requires Civil(Run(sys, events), e, paths)
    requires Clears(Run(sys, events).server, Run(sys, events).proxies[e.proxy], e.call).Some?
    ensures var end := Run(sys, events); var st := Respond(end, e).proxy.store;
      var (p, v) := Clears(end.server, end.proxies[e.proxy], e.call).value;
      && NoOtherVersion(st, p, v)
      && forall u: nat :: u != v && Shared(p, u) in st.disk ==> CacheSpec.Pins(st, Shared(p, u)) > 0
  {
    RunsAreNeat(sys, events, paths);
    hide Run;
    hide Sound;
    hide Open;
    hide ProxySpec.CloseReader;
    hide ProxySpec.CloseWriter;
    hide Fetched;
    var end := Run(sys, events);
    var sv, px, max := end.server, end.proxies[e.proxy], end.budgets[e.proxy];
    assert Neat(sv, px, paths);
    InvokeNeat(end, e, paths);
    match e.call {
      case OpenCall(p, mode) => MissClears(sv, px, max, paths, p, mode);
      case CloseCall(fd) =>
        if px.sessions[fd].Reader? {
          CloseReaderClears(sv, px, paths, fd);
        } else {
          CloseWriterClears(sv, px, max, paths, fd);
        }
    }
  }

  // ---- accounting

  /** A close never leaves bytes unbilled; it bills too much if and only if the
      file of the next version has bytes already, except that an empty private
      copy bills nothing when that file outlasts the reservation. */
  lemma RechargeOnlyForOldEntries(sv: ServerState, px: ProxyState, max: int, paths: set<string>, fd: nat)
    requires Neat(sv, px, paths) && PrefixFree(paths) && fd in px.sessions && px.sessions[fd].Writer?
    requires px.sessions[fd].path in sv.versions || FileOf(px.store.disk, KeyOf(px.sessions[fd], fd)) == []
    ensures CloseDebt(sv, px, max, fd) <= 0
    ensures CloseDebt(sv, px, max, fd) == 0 <==> BillsExactly(px, max, fd)
    ensures Shared(px.sessions[fd].path, px.sessions[fd].ver + 1) !in px.store.order ==> BillsExactly(px, max, fd)
  {
    hide CloseDebt;
    hide Reserve;
    hide FileServer.Push;
    hide Sound;
    hide CheckStale;
    MineIsCached(px, fd);
    SoundIsNoDup(px);
    var s := px.sessions[fd];
    var mine, next := Private(s.path, s.ver, fd), Shared(s.path, s.ver + 1);
    var data, made := px.store.disk[mine], px.store.(disk := px.store.disk[next := FileOf(px.store.disk, next)]);
    PushMakesFiles(sv, s.path, data);
    ReserveMatched(px.store, max, paths, next);
    ReservePrunes(px.store, max, next);
    SweepMatched(made, paths, next, Some(next));
    var r := Reserve(px.store, max, next).store;
    assert next in r.disk ==> r.disk[next] == FileOf(px.store.disk, next);
    CompletedDebt(sv, px, max, fd, r);
  }

  lemma CompletedDebt(sv: ServerState, px: ProxyState, max: int, fd: nat, r: Store)
    requires fd in px.sessions && px.sessions[fd].Writer?
    requires var s := px.sessions[fd]; var mine, next := Private(s.path, s.ver, fd), Shared(s.path, s.ver + 1);
      && mine in px.store.disk && Reserve(px.store, max, next) == Swept(r, true)
      && CheckStale(px.store.(disk := px.store.disk[next := FileOf(px.store.disk, next)]), next).ok
      && Push(sv, s.path, px.store.disk[mine], 0).ok
    ensures var s := px.sessions[fd]; var mine, next := Private(s.path, s.ver, fd), Shared(s.path, s.ver + 1);
      var data, was := px.store.disk[mine], FileOf(r.disk, next);
      CloseDebt(sv, px, max, fd) == |Overlay(was, data)| - |data|
        - if next in px.store.order then Length(px.store.disk, next) else 0
  {
    hide Reserve;
    hide FileServer.Push;
    hide CheckStale;
    hide Overlay;
  }

  /** The next version's file has no bytes yet, or the private copy has none and
      that file outlasts the reservation. */
  predicate BillsExactly(px: ProxyState, max: int, fd: nat)
    requires fd in px.sessions && px.sessions[fd].Writer?
  {
    var next := Shared(px.sessions[fd].path, px.sessions[fd].ver + 1);
    || Length(px.store.disk, next) == 0
    || (FileOf(px.store.disk, KeyOf(px.sessions[fd], fd)) == [] && next in Reserve(px.store, max, next).store.disk)
  }

  /** The bytes by which a call lengthens a private copy. */
  function LengthenedBy(px: ProxyState, call: Call): int {
    if call.WriteCall? then Lengthened(px, call.fd, call.buf) else 0
  }

  function LengthenedOver(sys: System, events: seq<Event>, i: nat): int
    requires Sized(sys) && Addressed(sys, events) && i < |sys.proxies|
  {
    if events == [] then 0
    else
      var front, last := events[..|events| - 1], events[|events| - 1];
      LengthenedOver(sys, front, i) +
        if last.proxy == i then LengthenedBy(Run(sys, front).proxies[i], last.call) else 0
  }

  /** The call is no write close, or one that bills exactly. */
  predicate CallBillsExactly(px: ProxyState, max: int, call: Call) {
    call.CloseCall? && call.fd in px.sessions && px.sessions[call.fd].Writer? ==> BillsExactly(px, max, call.fd)
  }

  predicate AllBillExactly(sys: System, events: seq<Event>, i: nat)
    requires Sized(sys) && Addressed(sys, events) && i < |sys.proxies|
  {
    forall n :: 0 <= n < |events| && events[n].proxy == i ==>
      CallBillsExactly(Run(sys, events[..n]).proxies[i], sys.budgets[i], events[n].call)
  }

  lemma CallDebt(sys: System, e: Event, paths: set<string>, max: int)
    requires SystemNeat(sys, paths) && PrefixFree(paths) && Civil(sys, e, paths)
    ensures var px := sys.proxies[e.proxy]; var d := Unbilled(sys.server, px, max, e.call) - LengthenedBy(px, e.call);
      d <= 0 && (d == 0 <==> CallBillsExactly(px, max, e.call))
  {
    hide CloseDebt;
    hide BillsExactly;
    hide Lengthened;
    hide OpenDebt;
    hide Sound;
    var px := sys.proxies[e.proxy];
    match e.call {
      case OpenCall(p, mode) => OpenBillsExactly(sys.server, px, max, paths, p, mode);
      case CloseCall(fd) =>
        if fd in px.sessions && px.sessions[fd].Writer? {
          RechargeOnlyForOldEntries(sys.server, px, max, paths, fd);
        }
      case _ =>
    }
  }

  lemma OpenBillsExactly(sv: ServerState, px: ProxyState, max: int, paths: set<string>, p: string, mode: OpenMode)
    requires ServerOk(sv) && Neat(sv, px, paths) && PrefixFree(paths) && p in paths
    ensures OpenDebt(sv, px, max, p, mode) == 0
  {
    hide Fetch;
    hide Sound;
    hide Spelled;
    var made := Create(sv, p);
    assert p in sv.files ==> Ver(sv, p) > 0;
    if k :| Fetched(sv, px, p, mode) == Some(k) {
      assert Neat(made, px, paths) && k.path == p && k !in px.store.order;
      FetchNeat(made, px, max, paths, k, FileBytes(sv, p));
    }
  }

  /** What a civil run leaves unbilled at a proxy is at most what its writes have
      lengthened, and exactly that if and only if each of its write closes bills
      exactly. */
  lemma {:induction false} UnbilledIsLengthenedIff(sys: System, events: seq<Event>, paths: set<string>, i: nat)
    requires Initial(sys) && Addressed(sys, events) && PrefixFree(paths) && CivilRun(sys, events, paths)
    requires i < |sys.proxies|
    ensures UnbilledOver(sys, events, i) <= LengthenedOver(sys, events, i)
    ensures UnbilledOver(sys, events, i) == LengthenedOver(sys, events, i) <==> AllBillExactly(sys, events, i)
  {
    if events != [] {
      hide Run;
      hide UnbilledOver;
      hide LengthenedOver;
      hide AllBillExactly;
      hide Civil;
      hide SystemNeat;
      hide Unbilled;
      hide LengthenedBy;
      hide CallBillsExactly;
      var front, last := events[..|events| - 1], events[|events| - 1];
      FrontIsCivil(sys, events, paths);
      UnbilledIsLengthenedIff(sys, front, paths, i);
      RunsAreNeat(sys, front, paths);
      LastBills(sys, events, i);
      LastStep(sys, events, i);
      if last.proxy == i {
        CallDebt(Run(sys, front), last, paths, sys.budgets[i]);
      }
    }
  }

  lemma LastBills(sys: System, events: seq<Event>, i: nat)
    requires Sized(sys) && Addressed(sys, events) && i < |sys.proxies| && events != []
    ensures var front, last := events[..|events| - 1], events[|events| - 1]; var px := Run(sys, front).proxies[i];
      && (AllBillExactly(sys, events, i) <==>
            AllBillExactly(sys, front, i) && (last.proxy == i ==> CallBillsExactly(px, sys.budgets[i], last.call)))
      && LengthenedOver(sys, events, i) ==
           LengthenedOver(sys, front, i) + if last.proxy == i then LengthenedBy(px, last.call) else 0
  {
    hide Run;
    hide LengthenedBy;
    hide CallBillsExactly;
    var front := events[..|events| - 1];
    forall n | 0 <= n <= |front| ensures front[..n] == events[..n] {
    }
  }

  /** The law in its plain form: on such runs curr_size is the total length of the
      cached files less the bytes by which writes have lengthened private copies;
      with no lengthening it is the total. */
  lemma SizeIsTotalLessLengthened(sys: System, events: seq<Event>, paths: set<string>, i: nat)
    requires Initial(sys) && Addressed(sys, events) && PrefixFree(paths) && CivilRun(sys, events, paths)
    requires i < |sys.proxies| && AllBillExactly(sys, events, i)
    ensures var st := Run(sys, events).proxies[i].store;
      st.size == Int32(Total(st.order, st.disk) - LengthenedOver(sys, events, i))
  {
    hide Run;
    hide CivilRun;
    hide AllBillExactly;
    hide Initial;
    hide UnbilledOver;
    hide LengthenedOver;
    hide Total;
    hide Int32;
    RunsBalance(sys, events, i);
    UnbilledIsLengthenedIff(sys, events, paths, i);
  }
}
