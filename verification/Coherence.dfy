/** Any number of proxies share one server. Over every orderly run no proxy ever
    holds a copy newer than the server's version, and a copy of the server's
    current version holds the server's bytes. */
module Coherence {
  import opened Options
  import opened Bytes
  import opened CacheKeys
  import opened CacheSpec
  import opened FileServer
  import opened ProxySpec

  datatype Call =
    | OpenCall(path: string, mode: OpenMode)
    | CloseCall(fd: nat)
    | WriteCall(fd: nat, buf: Content)
    | ReadCall(fd: nat, n: nat)
    | LseekCall(fd: nat, offset: int, whence: Whence)
    | UnlinkCall(path: string)

  function Invoke(sv: ServerState, px: ProxyState, max: int, call: Call): Outcome {
    match call
    case OpenCall(path, mode) => Open(sv, px, max, path, mode)
    case CloseCall(fd) => Close(sv, px, max, fd)
    case WriteCall(fd, buf) => var (px', reply) := Write(px, fd, buf); Outcome(sv, px', reply)
    case ReadCall(fd, n) => var (px', reply) := Read(px, fd, n); Outcome(sv, px', reply)
    case LseekCall(fd, offset, whence) => var (px', reply) := Lseek(px, fd, offset, whence); Outcome(sv, px', reply)
    case UnlinkCall(path) => var (sv', reply) := Unlink(sv, path); Outcome(sv', px, reply)
  }

  /** `proxies[i]` is the state of proxy i and `budgets[i]` its cache size. */
  datatype System = System(server: ServerState, proxies: seq<ProxyState>, budgets: seq<int>)

  datatype Event = Event(proxy: nat, call: Call)

  predicate Sized(sys: System) {
    |sys.budgets| == |sys.proxies|
  }

  function Respond(sys: System, e: Event): Outcome
    requires Sized(sys) && e.proxy < |sys.proxies|
  {
    Invoke(sys.server, sys.proxies[e.proxy], sys.budgets[e.proxy], e.call)
  }

  function Step(sys: System, e: Event): (r: System)
    requires Sized(sys) && e.proxy < |sys.proxies|
    ensures Sized(r) && |r.proxies| == |sys.proxies|
  {
    var o := Respond(sys, e);
    sys.(server := o.server, proxies := sys.proxies[e.proxy := o.proxy])
  }

  predicate Addressed(sys: System, events: seq<Event>) {
    forall i :: 0 <= i < |events| ==> events[i].proxy < |sys.proxies|
  }

  function Run(sys: System, events: seq<Event>): (r: System)
    requires Sized(sys) && Addressed(sys, events)
    ensures Sized(r) && |r.proxies| == |sys.proxies|
  {
    if events == [] then sys
    else Step(Run(sys, events[..|events| - 1]), events[|events| - 1])
  }

  lemma StepIsLast(sys: System, events: seq<Event>, e: Event)
    requires Sized(sys) && Addressed(sys, events) && e.proxy < |sys.proxies|
    ensures Addressed(sys, events + [e]) && Run(sys, events + [e]) == Step(Run(sys, events), e)
  {
    assert (events + [e])[..|events|] == events;
  }

  /** No unlink; a write descriptor is closed with a version entry on the server
      and a private copy that is not empty. */
  predicate Orderly(sys: System, e: Event) {
    && e.proxy < |sys.proxies|
    && match e.call
       case UnlinkCall(_) => false
       case CloseCall(fd) =>
         var px := sys.proxies[e.proxy];
         fd in px.sessions && px.sessions[fd].Writer? && KeyOf(px.sessions[fd], fd) in px.store.disk ==>
           px.sessions[fd].path in sys.server.versions && px.store.disk[KeyOf(px.sessions[fd], fd)] != []
       case _ => true
  }

  predicate OrderlyRun(sys: System, events: seq<Event>)
    requires Sized(sys) && Addressed(sys, events)
  {
    forall i :: 0 <= i < |events| ==> Orderly(Run(sys, events[..i]), events[i])
  }

  const FRESH := ProxyState(Store([], map[], 0, map[]), map[], 3)

  /** The server starts without version entries, every proxy with an empty cache
      directory. */
  ghost predicate Initial(sys: System) {
    && Sized(sys) && sys.server.versions == map[]
    && forall i :: 0 <= i < |sys.proxies| ==> sys.proxies[i] == FRESH
  }

  // ---- the invariant

  ghost predicate ServerOk(sv: ServerState) {
    forall p :: p in sv.versions ==> sv.versions[p] >= 1
  }

  /** A cached version is never ahead of the server, and equal bytes go with an
      equal version. A file of that or a later version, cached or not, is no longer
      than the server's, so that a fetch or a close covers it. */
  ghost predicate Fits(sv: ServerState, st: Store, p: string, v: nat) {
    var k := Shared(p, v);
    && (k in st.order ==> v <= Current(sv, p) && (v == Current(sv, p) ==> FileOf(st.disk, k) == FileBytes(sv, p)))
    && (v >= Current(sv, p) ==> |FileOf(st.disk, k)| <= |FileBytes(sv, p)|)
  }

  ghost predicate StoreFits(sv: ServerState, st: Store) {
    NoDup(st.order) && forall p: string, v: nat :: Fits(sv, st, p, v)
  }

  /** A private copy of the current version is at least as long as the file. */
  ghost predicate WriterFits(sv: ServerState, st: Store, fd: nat, p: string, v: nat) {
    && v <= Current(sv, p)
    && (v == Current(sv, p) && Private(p, v, fd) in st.disk ==>
          |st.disk[Private(p, v, fd)]| >= |FileBytes(sv, p)|)
  }

  ghost predicate Numbered(px: ProxyState) {
    && (forall fd :: fd in px.sessions ==> fd < px.nextFd)
    && (forall k :: (k in px.store.disk || k in px.store.order) && k.Private? ==> k.fd < px.nextFd)
  }

  ghost predicate Coherent(sv: ServerState, px: ProxyState) {
    && StoreFits(sv, px.store)
    && Numbered(px)
    && (forall fd :: fd in px.sessions && px.sessions[fd].Writer? ==>
          WriterFits(sv, px.store, fd, px.sessions[fd].path, px.sessions[fd].ver))
  }

  ghost predicate SystemCoherent(sys: System) {
    && Sized(sys) && ServerOk(sys.server)
    && forall i :: 0 <= i < |sys.proxies| ==> Coherent(sys.server, sys.proxies[i])
  }

  // ---- the server only moves forward

  ghost predicate Advances(sv: ServerState, sv': ServerState) {
    forall p: string ::
      && |FileBytes(sv', p)| >= |FileBytes(sv, p)|
      && (Current(sv', p) > Current(sv, p)
          || (Current(sv', p) == Current(sv, p) && FileBytes(sv', p) == FileBytes(sv, p)))
  }

  /** The server answers for every file as before. */
  ghost predicate SameFiles(sv: ServerState, sv': ServerState) {
    forall p: string :: Current(sv', p) == Current(sv, p) && FileBytes(sv', p) == FileBytes(sv, p)
  }

  lemma AdvanceKeepsCoherent(sv: ServerState, sv': ServerState, px: ProxyState)
    requires Coherent(sv, px) && Advances(sv, sv')
    ensures Coherent(sv', px)
  {
    hide Current;
    hide FileBytes;
    forall p: string, v: nat
      ensures Fits(sv', px.store, p, v)
    {
      assert Fits(sv, px.store, p, v);
    }
    forall fd | fd in px.sessions && px.sessions[fd].Writer?
      ensures WriterFits(sv', px.store, fd, px.sessions[fd].path, px.sessions[fd].ver)
    {
      assert WriterFits(sv, px.store, fd, px.sessions[fd].path, px.sessions[fd].ver);
    }
  }

  // ---- the store of one proxy

  /** `b` has lost some entries of `a` with their files, and possibly gained the
      entry `k`. */
  ghost predicate Pruned(a: Store, b: Store, k: Option<Key>) {
    && NoDup(b.order)
    && (forall x :: x in b.order ==> x in a.order || k == Some(x))
    && (forall x :: x in b.order && k != Some(x) ==> (x in b.disk <==> x in a.disk))
    && (forall x :: x in b.disk ==> x in a.disk && b.disk[x] == a.disk[x])
  }

  lemma RemovalPrunes(st: Store, gone: set<Key>)
    requires NoDup(st.order)
    ensures Pruned(st, RemoveAll(st, gone), None)
  {
    RemovalKeeps(st, gone);
  }

  lemma CheckStalePrunes(st: Store, name: Key)
    requires NoDup(st.order)
    ensures Pruned(st, CheckStale(st, name).store, None)
  {
    var gone := CheckStaleRemoves(st, name);
    RemovalPrunes(st, gone);
  }

  lemma PutPrunes(st: Store, max: int, k: Key)
    requires NoDup(st.order)
    ensures var r := Put(st, max, k); Pruned(st, r.store, if r.ok then Some(k) else None)
    ensures k !in st.order && k in st.disk ==> k in Put(st, max, k).store.disk
    ensures Put(st, max, k).ok ==> k in Put(st, max, k).store.order
  {
    var _ := PutKeeps(st, max, k);
  }

  // Losing entries keeps a store coherent; so does gaining a fitting one.
  lemma PrunedFits(sv: ServerState, a: Store, b: Store, k: Option<Key>)
    requires StoreFits(sv, a) && Pruned(a, b, k)
    requires k.Some? && k.value.Shared? ==>
      k.value.ver <= Current(sv, k.value.path)
      && (k.value.ver == Current(sv, k.value.path) ==> FileOf(b.disk, k.value) == FileBytes(sv, k.value.path))
    ensures StoreFits(sv, b)
  {
    hide Current;
    hide FileBytes;
    forall p: string, v: nat
      ensures Fits(sv, b, p, v)
    {
      assert Fits(sv, a, p, v);
    }
  }

  lemma TouchFits(sv: ServerState, st: Store, k: Key)
    requires StoreFits(sv, st)
    ensures StoreFits(sv, Touch(st, k))
  {
    hide Current;
    hide FileBytes;
    if k in st.order {
      InExcept(st.order, {k});
      ExceptNoDup(st.order, {k});
      forall p: string, v: nat
        ensures Fits(sv, Touch(st, k), p, v)
      {
        assert Fits(sv, st, p, v);
      }
    }
  }

  lemma ClientsDoNotMatter(sv: ServerState, st: Store, clients: map<Key, nat>)
    requires StoreFits(sv, st)
    ensures StoreFits(sv, st.(clients := clients))
  {
    forall p: string, v: nat
      ensures Fits(sv, st.(clients := clients), p, v)
    {
      assert Fits(sv, st, p, v);
    }
  }

  // ---- open

  lemma OverlayLonger(file: Content, data: Content)
    ensures |file| <= |data| ==> Overlay(file, data) == data
    ensures data == [] ==> Overlay(file, data) == file
    ensures |Overlay(file, data)| >= |data|
  {
  }

  lemma FetchFits(sv: ServerState, st: Store, max: int, p: string, v: nat)
    requires StoreFits(sv, st) && v <= Current(sv, p)
    requires Shared(p, v) !in st.order || FileBytes(sv, p) == []
    ensures var k, r := Shared(p, v), Fetch(st, max, Shared(p, v), FileBytes(sv, p));
      && StoreFits(sv, r.store)
      && (forall x :: x in r.store.disk && x != k ==> x in st.disk && r.store.disk[x] == st.disk[x])
      && (forall x :: x in r.store.order ==> x in st.order || x == k)
      && (v == Current(sv, p) ==> Overlay(FileOf(st.disk, k), FileBytes(sv, p)) == FileBytes(sv, p))
      && (r.ok ==> k in r.store.order && (k !in st.order ==>
            k in r.store.disk && r.store.disk[k] == Overlay(FileOf(st.disk, k), FileBytes(sv, p))))
  {
    hide CacheSpec.Put;
    hide Current;
    hide FileBytes;
    var k := Shared(p, v);
    assert Fits(sv, st, p, v);
    var file := Overlay(FileOf(st.disk, k), FileBytes(sv, p));
    OverlayLonger(FileOf(st.disk, k), FileBytes(sv, p));
    var st1 := st.(disk := st.disk[k := file]);
    forall q: string, u: nat
      ensures Fits(sv, st1, q, u)
    {
      assert Fits(sv, st, q, u);
    }
    PutPrunes(st1, max, k);
    PrunedFits(sv, st1, Put(st1, max, k).store, if Put(st1, max, k).ok then Some(k) else None);
  }

  lemma GrantWriterCoherent(sv: ServerState, px: ProxyState, max: int, p: string, v: nat, base: Content)
    requires Coherent(sv, px) && v <= Current(sv, p) && (v == Current(sv, p) ==> |base| >= |FileBytes(sv, p)|)
    ensures var r := GrantWriter(px, max, p, v, base); var k := Private(p, v, px.nextFd);
      Coherent(sv, r) && k in r.store.disk && r.store.disk[k] == base
  {
    hide CacheSpec.Put;
    hide Current;
    hide FileBytes;
    var k := Private(p, v, px.nextFd);
    assert Overlay([], base) == base;
    var st1 := px.store.(disk := px.store.disk[k := base]);
    forall q: string, u: nat
      ensures Fits(sv, st1, q, u)
    {
      assert Fits(sv, px.store, q, u);
    }
    PutPrunes(st1, max, k);
    var r := Put(st1, max, k).store;
    PrunedFits(sv, st1, r, Some(k));
    ClientsDoNotMatter(sv, r, AddClient(r, k).clients);
    forall fd | fd in px.sessions && px.sessions[fd].Writer?
      ensures WriterFits(sv, r, fd, px.sessions[fd].path, px.sessions[fd].ver)
    {
    }
  }

  lemma StoreChangeCoherent(sv: ServerState, px: ProxyState, st: Store)
    requires Coherent(sv, px) && StoreFits(sv, st)
    requires forall k :: k in st.disk && k.Private? ==> k in px.store.disk && st.disk[k] == px.store.disk[k]
    requires forall k :: k in st.order && k.Private? ==> k in px.store.order
    ensures Coherent(sv, px.(store := st))
  {
  }

  lemma GrantReaderCoherent(sv: ServerState, px: ProxyState, k: Key)
    requires Coherent(sv, px)
    ensures Coherent(sv, GrantReader(px, k))
  {
    ClientsDoNotMatter(sv, px.store, AddClient(px.store, k).clients);
  }

  lemma FetchThenWriteCoherent(sv: ServerState, px: ProxyState, max: int, p: string, v: nat)
    requires Coherent(sv, px) && v <= Current(sv, p)
    requires Shared(p, v) !in px.store.order || FileBytes(sv, p) == []
    ensures var o := FetchThenWrite(sv, px, max, p, v); var k := Private(p, v, px.nextFd);
      && Coherent(sv, o.proxy) && o.server == sv
      && (o.reply != Thrown && v == Current(sv, p) ==>
            k in o.proxy.store.disk && o.proxy.store.disk[k] == FileBytes(sv, p))
  {
    hide Fetch;
    hide GrantWriter;
    hide Current;
    hide FileBytes;
    FetchFits(sv, px.store, max, p, v);
    var r := Fetch(px.store, max, Shared(p, v), FileBytes(sv, p));
    StoreChangeCoherent(sv, px, r.store);
    if r.ok {
      GrantWriterCoherent(sv, px.(store := r.store), max, p, v, Overlay(FileOf(px.store.disk, Shared(p, v)), FileBytes(sv, p)));
    }
  }

  // Looking a file up, and making it, change no version and no bytes.
  lemma LookupSame(sv: ServerState, p: string)
    requires ServerOk(sv)
    ensures var told := Lookup(sv, p);
      && ServerOk(told) && SameFiles(sv, told) && Ver(told, p) == Ver(sv, p)
      && ServerOk(Create(told, p)) && SameFiles(sv, Create(told, p))
      && (p !in sv.files ==> told == sv)
      && (p in sv.files ==> Ver(sv, p) == Current(sv, p) > 0)
  {
  }

  lemma SameAdvances(sv: ServerState, sv': ServerState)
    requires SameFiles(sv, sv')
    ensures Advances(sv, sv')
  {
  }

  /** What a descriptor sees right after its open: for a file on the server, its
      current bytes. */
  ghost predicate SeesCurrent(sv: ServerState, px: ProxyState, fd: nat, p: string) {
    && fd in px.sessions
    && var k := KeyOf(px.sessions[fd], fd);
       k.path == p && k.ver == Ver(sv, p) && k in px.store.disk && px.store.disk[k] == FileBytes(sv, p)
  }

  lemma OpenHitCoherent(sv: ServerState, px: ProxyState, max: int, p: string, k: Key, read: bool)
    requires ServerOk(sv) && Coherent(sv, px) && k in px.store.order
    requires if p in sv.files then k == Shared(p, Ver(sv, p)) else Ver(sv, p) == 0
    ensures var touched := px.(store := Touch(px.store, k));
      var r := if read then GrantReader(touched, k)
        else GrantWriter(touched, max, p, Ver(sv, p), FileOf(px.store.disk, k));
      Coherent(sv, r) && (p in sv.files && (read ==> k in px.store.disk) ==> SeesCurrent(sv, r, px.nextFd, p))
  {
    hide GrantWriter;
    var touched := px.(store := Touch(px.store, k));
    TouchFits(sv, px.store, k);
    InExcept(px.store.order, {k});
    StoreChangeCoherent(sv, px, touched.store);
    assert Fits(sv, px.store, p, Ver(sv, p));
    if read {
      GrantReaderCoherent(sv, touched, k);
    } else {
      GrantWriterCoherent(sv, touched, max, p, Ver(sv, p), FileOf(px.store.disk, k));
      GrantedWriter(touched, max, p, Ver(sv, p), FileOf(px.store.disk, k));
    }
  }

  lemma GrantedWriter(px: ProxyState, max: int, p: string, v: nat, base: Content)
    ensures GrantWriter(px, max, p, v, base).sessions == px.sessions[px.nextFd := Writer(p, v, 0)]
  {
  }

  /** Open keeps coherence, and leaves every version and every file on the server
      as it is. */
  ghost predicate OpenedWell(sv: ServerState, o: Outcome, p: string, current: bool) {
    && ServerOk(o.server) && SameFiles(sv, o.server) && Coherent(o.server, o.proxy)
    && (o.reply.Opened? && current ==> SeesCurrent(o.server, o.proxy, o.reply.fd, p))
  }

  lemma CreateAbsent(sv: ServerState, px: ProxyState, max: int, p: string)
    requires ServerOk(sv) && Coherent(sv, px) && p !in sv.files
    ensures OpenedWell(sv, FetchThenWrite(Create(Lookup(sv, p), p), px, max, p, 1), p, Current(sv, p) == 1)
  {
    LookupSame(sv, p);
    var made := Create(Lookup(sv, p), p);
    assert made.files[p] == [] && Ver(made, p) == Current(sv, p) && Current(made, p) >= 1;
    NewFileWritten(sv, made, px, max, p);
  }

  lemma NewFileWritten(sv: ServerState, made: ServerState, px: ProxyState, max: int, p: string)
    requires Coherent(sv, px) && ServerOk(made) && SameFiles(sv, made) && FileBytes(made, p) == []
    requires Ver(made, p) == Current(sv, p) && Current(made, p) >= 1
    ensures OpenedWell(sv, FetchThenWrite(made, px, max, p, 1), p, Current(sv, p) == 1)
  {
    hide Current;
    hide FileBytes;
    hide Ver;
    hide ServerOk;
    SameAdvances(sv, made);
    AdvanceKeepsCoherent(sv, made, px);
    FetchThenWriteCoherent(made, px, max, p, 1);
    FetchedWriter(made, px, max, p, 1);
    hide FetchThenWrite;
    hide Coherent;
  }

  lemma FetchedWriter(sv: ServerState, px: ProxyState, max: int, p: string, v: nat)
    ensures var o := FetchThenWrite(sv, px, max, p, v);
      o.reply.Opened? ==> o.reply.fd == px.nextFd && o.proxy.sessions == px.sessions[px.nextFd := Writer(p, v, 0)]
  {
    hide CacheSpec.Put;
  }

  lemma OpenHitWell(sv: ServerState, px: ProxyState, max: int, p: string, mode: OpenMode)
    requires ServerOk(sv) && Coherent(sv, px) && Hit(px.store.order, p, Ver(sv, p)).Some?
    ensures OpenedWell(sv, Open(sv, px, max, p, mode), p,
                       p in sv.files && (mode == READ ==> Shared(p, Ver(sv, p)) in px.store.disk))
  {
    LookupSame(sv, p);
    var told := Lookup(sv, p);
    SameAdvances(sv, told);
    AdvanceKeepsCoherent(sv, told, px);
    OpenHitCoherent(told, px, max, p, Hit(px.store.order, p, Ver(sv, p)).value, mode == READ);
    hide GrantWriter;
    hide GrantReader;
    hide Coherent;
    hide SameFiles;
  }

  lemma OpenMissReads(sv: ServerState, px: ProxyState, max: int, p: string)
    requires ServerOk(sv) && Coherent(sv, px) && p in sv.files && Shared(p, Ver(sv, p)) !in px.store.order
    ensures OpenedWell(sv, Open(sv, px, max, p, READ), p, true)
  {
    hide Fetch;
    LookupSame(sv, p);
    var told := Lookup(sv, p);
    SameAdvances(sv, told);
    AdvanceKeepsCoherent(sv, told, px);
    FetchFits(told, px.store, max, p, Ver(sv, p));
    var r := Fetch(px.store, max, Shared(p, Ver(sv, p)), FileBytes(told, p));
    StoreChangeCoherent(told, px, r.store);
    GrantReaderCoherent(told, px.(store := r.store), Shared(p, Ver(sv, p)));
    hide Coherent;
    hide SameFiles;
  }

  lemma OpenMissWrites(sv: ServerState, px: ProxyState, max: int, p: string)
    requires ServerOk(sv) && Coherent(sv, px) && p in sv.files && Shared(p, Ver(sv, p)) !in px.store.order
    ensures OpenedWell(sv, FetchThenWrite(Lookup(sv, p), px, max, p, Ver(sv, p)), p, true)
  {
    hide GrantWriter;
    LookupSame(sv, p);
    var told := Lookup(sv, p);
    SameAdvances(sv, told);
    AdvanceKeepsCoherent(sv, told, px);
    FetchThenWriteCoherent(told, px, max, p, Ver(sv, p));
    FetchedWriter(told, px, max, p, Ver(sv, p));
  }

  lemma OpenMissWell(sv: ServerState, px: ProxyState, max: int, p: string, mode: OpenMode)
    requires ServerOk(sv) && Coherent(sv, px) && p in sv.files && Shared(p, Ver(sv, p)) !in px.store.order
    ensures OpenedWell(sv, Open(sv, px, max, p, mode), p, true)
  {
    match mode
    case READ =>
      OpenMissReads(sv, px, max, p);
    case CREATE_NEW =>
      LookupSame(sv, p);
      SameAdvances(sv, Lookup(sv, p));
      AdvanceKeepsCoherent(sv, Lookup(sv, p), px);
    case CREATE =>
      OpenMissWrites(sv, px, max, p);
    case WRITE =>
      OpenMissWrites(sv, px, max, p);
  }

  /** The open of a file the server has sees its bytes, if the cached copy it
      hits is on disk; so does the open of one it makes, if no older version of it
      is on record. */
  ghost predicate WillSee(sv: ServerState, px: ProxyState, p: string, mode: OpenMode) {
    if p in sv.files then
      mode == READ && Shared(p, Ver(sv, p)) in px.store.order ==> Shared(p, Ver(sv, p)) in px.store.disk
    else Spelled(px.store.order, p).None? && Current(sv, p) == 1
  }

  lemma OpenCoherent(sv: ServerState, px: ProxyState, max: int, p: string, mode: OpenMode)
    requires ServerOk(sv) && Coherent(sv, px)
    ensures OpenedWell(sv, Open(sv, px, max, p, mode), p, WillSee(sv, px, p, mode))
  {
    hide FetchThenWrite;
    hide GrantWriter;
    hide Fetch;
    assert p in sv.files ==> Ver(sv, p) != 0;
    if Hit(px.store.order, p, Ver(sv, p)).Some? {
      OpenHitWell(sv, px, max, p, mode);
    } else if p in sv.files {
      OpenMissWell(sv, px, max, p, mode);
    } else {
      LookupSame(sv, p);
      CreateAbsent(sv, px, max, p);
    }
  }

  // ---- close

  lemma CloseReaderCoherent(sv: ServerState, px: ProxyState, fd: nat, k: Key)
    requires Coherent(sv, px)
    ensures Coherent(sv, CloseReader(px, fd, k).0)
  {
    hide CheckStale;
    hide Fits;
    var st0 := Touch(px.store, k);
    InExcept(px.store.order, {k});
    TouchFits(sv, px.store, k);
    var st1 := Unpin(st0, k);
    ClientsDoNotMatter(sv, st0, st1.clients);
    CheckStalePrunes(st1, k);
    var st2 := CheckStale(st1, k).store;
    PrunedFits(sv, st1, st2, None);
    CheckStalePrunes(st2, k);
    PrunedFits(sv, st2, CheckStale(st2, k).store, None);
  }

  /** Reserving the entry of the next version prunes the store; the entry's file
      holds what was there before, or nothing. */
  ghost predicate Reserved(st: Store, r: Store, ok: bool, k: Key) {
    && NoDup(r.order)
    && (forall x :: x in r.order ==> x in st.order || (ok && x == k))
    && (forall x :: x in r.order && x != k ==> (x in r.disk <==> x in st.disk))
    && (!ok && k in r.order ==> k in r.disk)
    && (forall x :: x in r.disk ==> r.disk[x] == FileOf(st.disk, x))
    && (forall x :: x in r.disk && x != k ==> x in st.disk)
    && (ok ==> k in r.order)
  }

  lemma ReservePrunes(st: Store, max: int, k: Key)
    requires NoDup(st.order)
    ensures Reserved(st, Reserve(st, max, k).store, Reserve(st, max, k).ok, k)
  {
    hide CacheSpec.Put;
    hide CheckStale;
    var made := st.(disk := st.disk[k := FileOf(st.disk, k)]);
    CheckStalePrunes(made, k);
    var once := CheckStale(made, k);
    PutPrunes(once.store, max, k);
  }

  // A reservation that fails leaves at most an empty file behind.
  lemma ReserveFailsCoherent(sv: ServerState, px: ProxyState, max: int, k: Key)
    requires Coherent(sv, px) && k.Shared? && !Reserve(px.store, max, k).ok
    ensures Coherent(sv, px.(store := Reserve(px.store, max, k).store))
  {
    hide Reserve;
    hide Current;
    hide FileBytes;
    ReservePrunes(px.store, max, k);
    var r := Reserve(px.store, max, k).store;
    forall p: string, v: nat
      ensures Fits(sv, r, p, v)
    {
      assert Fits(sv, px.store, p, v);
    }
    StoreChangeCoherent(sv, px, r);
  }

  lemma ChunksPositive(n: nat)
    ensures n > 0 ==> Chunks(n) >= 1
    ensures n > CHUNK_SIZE ==> Chunks(n) >= 2
  {
  }

  /** The server after a write close: the private copy lies over the old file
      and the version has grown by one per chunk; if the version was still the
      one the copy was made from, the file is the private copy exactly. */
  lemma PushAdvances(sv: ServerState, p: string, v: nat, data: Content)
    requires ServerOk(sv) && p in sv.versions && data != []
    requires v == Current(sv, p) ==> |data| >= |FileBytes(sv, p)|
    ensures var u := Push(sv, p, data, 0);
      && u.ok && ServerOk(u.server) && Advances(sv, u.server)
      && Current(u.server, p) == Current(sv, p) + Chunks(|data|) > Current(sv, p)
      && FileBytes(u.server, p) == Overlay(FileBytes(sv, p), data)
      && (v == Current(sv, p) ==> FileBytes(u.server, p) == data)
  {
    WriteBack(sv, p, data);
    ChunksPositive(|data|);
  }

  // The entry a close installs fits the server it has just updated.
  lemma DeliveredFits(sv: ServerState, sv': ServerState, st: Store, b: Store, p: string, v: nat, data: Content)
    requires StoreFits(sv, st) && Advances(sv, sv')
    requires v <= Current(sv, p) && Current(sv', p) > Current(sv, p)
    requires v == Current(sv, p) ==> FileBytes(sv', p) == data
    requires Delivered(st, b, Shared(p, v + 1), data)
    ensures StoreFits(sv', b)
  {
    hide Current;
    hide FileBytes;
    forall q: string, u: nat
      ensures Fits(sv', b, q, u)
    {
      assert Fits(sv, st, q, u);
      if Shared(q, u) == Shared(p, v + 1) && v == Current(sv, p) {
        OverlayLonger(FileOf(st.disk, Shared(p, v + 1)), data);
        OverlayLonger([], data);
      }
    }
  }

  lemma CloseWriterCoherent(sv: ServerState, px: ProxyState, max: int, fd: nat, p: string, v: nat)
    requires ServerOk(sv) && Coherent(sv, px)
    requires fd in px.sessions && px.sessions[fd].Writer? && px.sessions[fd].path == p && px.sessions[fd].ver == v
    requires Private(p, v, fd) in px.store.disk ==>
      p in sv.versions && px.store.disk[Private(p, v, fd)] != []
    ensures var o := CloseWriter(sv, px, max, fd, p, v);
      ServerOk(o.server) && Advances(sv, o.server) && Coherent(o.server, o.proxy)
  {
    var mine, next := Private(p, v, fd), Shared(p, v + 1);
    if mine in px.store.disk {
      var r := Reserve(px.store, max, next);
      if r.ok {
        var data := px.store.disk[mine];
        DeliverCoherent(sv, px, max, fd, p, v);
      } else {
        ReserveFailsCoherent(sv, px, max, next);
      }
    }
  }

  /** The store after a write close has lost entries, and holds the private
      copy as the entry of the next version. */
  ghost predicate Delivered(a: Store, b: Store, next: Key, data: Content) {
    && NoDup(b.order)
    && next in b.order && next in b.disk
    && (b.disk[next] == Overlay([], data) || b.disk[next] == Overlay(FileOf(a.disk, next), data))
    && (forall x :: x in b.disk && x != next ==> x in a.disk && b.disk[x] == a.disk[x])
    && (forall x :: x in b.order && x != next ==> x in a.order && (x in b.disk <==> x in a.disk))
  }

  lemma DeliversStore(st: Store, r: Store, next: Key, mine: Key, data: Content)
    requires Reserved(st, r, true, next) && next != mine
    ensures var was := FileOf(r.disk, next);
      Delivered(st, RemoveWriter(r.(disk := r.disk[next := Overlay(was, data)],
                                    size := Int32(r.size + |data| - |was|)), mine), next, data)
  {
    InExcept(r.order, {mine});
    ExceptNoDup(r.order, {mine});
  }

  lemma DeliverCoherent(sv: ServerState, px: ProxyState, max: int, fd: nat, p: string, v: nat)
    requires ServerOk(sv) && Coherent(sv, px)
    requires fd in px.sessions && px.sessions[fd].Writer? && px.sessions[fd].path == p && px.sessions[fd].ver == v
    requires Private(p, v, fd) in px.store.disk && p in sv.versions && px.store.disk[Private(p, v, fd)] != []
    requires Reserve(px.store, max, Shared(p, v + 1)).ok
    ensures var o := Deliver(sv, px.(store := Reserve(px.store, max, Shared(p, v + 1)).store), fd, p, v,
                             px.store.disk[Private(p, v, fd)]);
      ServerOk(o.server) && Advances(sv, o.server) && Coherent(o.server, o.proxy)
  {
    hide Reserve;
    hide FileServer.Push;
    hide Current;
    hide FileBytes;
    hide ServerOk;
    var mine, next := Private(p, v, fd), Shared(p, v + 1);
    var data := px.store.disk[mine];
    var r := Reserve(px.store, max, next).store;
    assert WriterFits(sv, px.store, fd, p, v);
    PushAdvances(sv, p, v, data);
    ReservePrunes(px.store, max, next);
    DeliversStore(px.store, r, next, mine, data);
    hide Fits;
    hide RemoveWriter;
    hide Advances;
    var o := Deliver(sv, px.(store := r), fd, p, v, data);
    DeliveredCoherent(sv, o.server, px, o.proxy, fd, p, v, data);
  }

  lemma DeliveredCoherent(sv: ServerState, sv': ServerState, px: ProxyState, px': ProxyState, fd: nat,
                          p: string, v: nat, data: Content)
    requires Coherent(sv, px) && Advances(sv, sv') && v <= Current(sv, p) && Current(sv', p) > Current(sv, p)
    requires v == Current(sv, p) ==> FileBytes(sv', p) == data
    requires Delivered(px.store, px'.store, Shared(p, v + 1), data)
    requires px'.sessions == px.sessions - {fd} && px'.nextFd == px.nextFd
    ensures Coherent(sv', px')
  {
    hide Current;
    hide FileBytes;
    DeliveredFits(sv, sv', px.store, px'.store, p, v, data);
    hide Fits;
    forall g | g in px'.sessions && px'.sessions[g].Writer?
      ensures WriterFits(sv', px'.store, g, px'.sessions[g].path, px'.sessions[g].ver)
    {
      assert WriterFits(sv, px.store, g, px.sessions[g].path, px.sessions[g].ver);
    }
  }

  /** The entry that the close of an empty copy of version v installs agrees with
      the server: it is older, or it is the server's version and its file, as the
      reservation leaves it, has the server's bytes. */
  predicate EmptyEntryFits(sv: ServerState, px: ProxyState, max: int, p: string, v: nat) {
    var next := Shared(p, v + 1);
    || v + 1 < Current(sv, p)
    || (v + 1 == Current(sv, p) && FileOf(Reserve(px.store, max, next).store.disk, next) == FileBytes(sv, p))
  }

  /** The close of this descriptor gets as far as installing an empty copy. */
  predicate InstallsEmpty(px: ProxyState, max: int, fd: nat, p: string, v: nat) {
    && Private(p, v, fd) in px.store.disk && px.store.disk[Private(p, v, fd)] == []
    && Reserve(px.store, max, Shared(p, v + 1)).ok
  }

  /** The condition on empty copies is exact, for descriptors of every version: a
      write close keeps coherence if and only if its private copy is not empty,
      or the close ends before it installs anything, or the entry it installs
      agrees with the server. The version entry only matters for a copy that is
      not empty. */
  lemma EmptyCloseIsTheException(sv: ServerState, px: ProxyState, max: int, fd: nat, p: string, v: nat)
    requires ServerOk(sv) && Coherent(sv, px)
    requires fd in px.sessions && px.sessions[fd].Writer? && px.sessions[fd].path == p && px.sessions[fd].ver == v
    requires Private(p, v, fd) in px.store.disk && px.store.disk[Private(p, v, fd)] != [] ==> p in sv.versions
    ensures var o := CloseWriter(sv, px, max, fd, p, v);
      && ServerOk(o.server) && Advances(sv, o.server)
      && (Coherent(o.server, o.proxy) <==> (InstallsEmpty(px, max, fd, p, v) ==> EmptyEntryFits(sv, px, max, p, v)))
  {
    hide Reserve;
    var mine, next := Private(p, v, fd), Shared(p, v + 1);
    if mine in px.store.disk && px.store.disk[mine] == [] {
      if Reserve(px.store, max, next).ok {
        EmptyDeliver(sv, px, max, fd, p, v);
      } else {
        ReserveFailsCoherent(sv, px, max, next);
      }
    } else {
      CloseWriterCoherent(sv, px, max, fd, p, v);
    }
  }

  // An empty copy leaves the server alone and installs the reserved file as it is.
  lemma EmptyDeliver(sv: ServerState, px: ProxyState, max: int, fd: nat, p: string, v: nat)
    requires ServerOk(sv) && Coherent(sv, px)
    requires fd in px.sessions && px.sessions[fd].Writer? && px.sessions[fd].path == p && px.sessions[fd].ver == v
    requires InstallsEmpty(px, max, fd, p, v)
    ensures var o := CloseWriter(sv, px, max, fd, p, v); var next := Shared(p, v + 1);
      && o.reply == Done && o.server == sv
      && next in o.proxy.store.order && next in o.proxy.store.disk
      && o.proxy.store.disk[next] == FileOf(Reserve(px.store, max, next).store.disk, next)
      && (Coherent(sv, o.proxy) <==> EmptyEntryFits(sv, px, max, p, v))
  {
    hide Reserve;
    var mine, next := Private(p, v, fd), Shared(p, v + 1);
    var r := Reserve(px.store, max, next).store;
    ReservePrunes(px.store, max, next);
    DeliversStore(px.store, r, next, mine, px.store.disk[mine]);
    hide Coherent;
    OverlayLonger(FileOf(r.disk, next), []);
    EmptyInstalled(sv, px, CloseWriter(sv, px, max, fd, p, v).proxy, fd, p, v, FileOf(r.disk, next));
  }

  lemma EmptyInstalled(sv: ServerState, px: ProxyState, px': ProxyState, fd: nat, p: string, v: nat, was: Content)
    requires Coherent(sv, px) && Delivered(px.store, px'.store, Shared(p, v + 1), [])
    requires px'.store.disk[Shared(p, v + 1)] == was
    requires px'.sessions == px.sessions - {fd} && px'.nextFd == px.nextFd
    ensures Coherent(sv, px') <==> v + 1 < Current(sv, p) || (v + 1 == Current(sv, p) && was == FileBytes(sv, p))
  {
    hide Current;
    hide FileBytes;
    if v + 1 < Current(sv, p) || (v + 1 == Current(sv, p) && was == FileBytes(sv, p)) {
      forall q: string, u: nat
        ensures Fits(sv, px'.store, q, u)
      {
        assert Fits(sv, px.store, q, u);
      }
    } else {
      assert !Fits(sv, px'.store, p, v + 1);
    }
  }

  // ---- reading, writing, seeking

  lemma WriteCoherent(sv: ServerState, px: ProxyState, fd: nat, buf: Content)
    requires Coherent(sv, px)
    ensures Coherent(sv, Write(px, fd, buf).0)
  {
    hide Current;
    hide FileBytes;
    var px' := Write(px, fd, buf).0;
    forall p: string, v: nat
      ensures Fits(sv, px'.store, p, v)
    {
      assert Fits(sv, px.store, p, v);
    }
    forall g | g in px'.sessions && px'.sessions[g].Writer?
      ensures WriterFits(sv, px'.store, g, px'.sessions[g].path, px'.sessions[g].ver)
    {
      assert WriterFits(sv, px.store, g, px.sessions[g].path, px.sessions[g].ver);
    }
  }

  lemma InvokeCoherent(sys: System, e: Event)
    requires SystemCoherent(sys) && Orderly(sys, e)
    ensures var o := Respond(sys, e);
      ServerOk(o.server) && Advances(sys.server, o.server) && Coherent(o.server, o.proxy)
  {
    var sv, px, max := sys.server, sys.proxies[e.proxy], sys.budgets[e.proxy];
    match e.call
    case OpenCall(path, mode) => OpenCoherent(sv, px, max, path, mode);
    case CloseCall(fd) =>
      if fd in px.sessions {
        match px.sessions[fd]
        case Reader(k, _) => CloseReaderCoherent(sv, px, fd, k);
        case Writer(p, v, _) => CloseWriterCoherent(sv, px, max, fd, p, v);
      }
    case WriteCall(fd, buf) => WriteCoherent(sv, px, fd, buf);
    case ReadCall(_, _) =>
    case LseekCall(_, _, _) =>
    case UnlinkCall(_) =>
  }

  lemma StepCoherent(sys: System, e: Event)
    requires SystemCoherent(sys) && Orderly(sys, e)
    ensures SystemCoherent(Step(sys, e))
  {
    InvokeCoherent(sys, e);
    var sys' := Step(sys, e);
    forall i | 0 <= i < |sys.proxies|
      ensures Coherent(sys'.server, sys'.proxies[i])
    {
      if i != e.proxy {
        AdvanceKeepsCoherent(sys.server, sys'.server, sys.proxies[i]);
      }
    }
  }

  lemma InitialCoherent(sys: System)
    requires Initial(sys)
    ensures SystemCoherent(sys)
  {
  }

  // ---- without unlink every entry has its file

  ghost predicate EntriesHaveFiles(sv: ServerState) {
    sv.versions.Keys <= sv.files.Keys
  }

  /** Every cached entry is on disk, and its file on the server. */
  ghost predicate OnDisk(sv: ServerState, st: Store) {
    forall k :: k in st.order ==> k in st.disk && (k.Shared? ==> k.path in sv.files)
  }

  ghost predicate SystemKept(sys: System) {
    && EntriesHaveFiles(sys.server)
    && forall i :: 0 <= i < |sys.proxies| ==> OnDisk(sys.server, sys.proxies[i].store)
  }

  lemma {:induction false} PushKeepsEntries(sv: ServerState, p: string, data: Content, pos: nat)
    requires EntriesHaveFiles(sv)
    ensures var sv' := Push(sv, p, data, pos).server;
      EntriesHaveFiles(sv') && sv.files.Keys <= sv'.files.Keys
    decreases |data| - pos
  {
    hide WriteAt;
    if pos < |data| {
      var u := Update(sv, p, ChunkAt(data, pos), pos);
      if u.ok {
        PushKeepsEntries(u.server, p, data, pos + |ChunkAt(data, pos)|);
      }
    }
  }

  lemma CallKeepsEntries(sv: ServerState, px: ProxyState, max: int, call: Call)
    requires EntriesHaveFiles(sv) && !call.UnlinkCall?
    ensures var sv' := Invoke(sv, px, max, call).server;
      EntriesHaveFiles(sv') && sv.files.Keys <= sv'.files.Keys
  {
    hide CacheSpec.Put;
    hide Reserve;
    hide FileServer.Push;
    hide GrantWriter;
    hide GrantReader;
    hide Hit;
    if call.CloseCall? && call.fd in px.sessions && px.sessions[call.fd].Writer? {
      var s := px.sessions[call.fd];
      PushKeepsEntries(sv, s.path, FileOf(px.store.disk, KeyOf(s, call.fd)), 0);
    }
  }

  lemma PrunedOnDisk(sv: ServerState, a: Store, b: Store, k: Option<Key>)
    requires OnDisk(sv, a) && Pruned(a, b, k)
    requires k.Some? ==> k.value in b.disk && (k.value.Shared? ==> k.value.path in sv.files)
    ensures OnDisk(sv, b)
  {
  }

  lemma FetchOnDisk(sv: ServerState, st: Store, max: int, k: Key, bytes: Content)
    requires NoDup(st.order) && OnDisk(sv, st) && k !in st.order && k.path in sv.files
    ensures var r := Fetch(st, max, k, bytes).store;
      OnDisk(sv, r) && NoDup(r.order) && forall x :: x in r.order ==> x in st.order || x == k
  {
    hide CacheSpec.Put;
    var st1 := st.(disk := st.disk[k := Overlay(FileOf(st.disk, k), bytes)]);
    PutPrunes(st1, max, k);
    PrunedOnDisk(sv, st1, Put(st1, max, k).store, if Put(st1, max, k).ok then Some(k) else None);
  }

  lemma GrantWriterOnDisk(sv: ServerState, px: ProxyState, max: int, p: string, v: nat, base: Content)
    requires NoDup(px.store.order) && OnDisk(sv, px.store) && Private(p, v, px.nextFd) !in px.store.order
    ensures OnDisk(sv, GrantWriter(px, max, p, v, base).store)
  {
    hide CacheSpec.Put;
    var k := Private(p, v, px.nextFd);
    var st1 := px.store.(disk := px.store.disk[k := Overlay(FileOf(px.store.disk, k), base)]);
    PutPrunes(st1, max, k);
    PrunedOnDisk(sv, st1, Put(st1, max, k).store, Some(k));
  }

  lemma OpenOnDisk(sv: ServerState, px: ProxyState, max: int, p: string, mode: OpenMode)
    requires ServerOk(sv) && NoDup(px.store.order) && Numbered(px) && OnDisk(sv, px.store)
    ensures var o := Open(sv, px, max, p, mode); OnDisk(o.server, o.proxy.store)
  {
    hide Fetch;
    hide GrantWriter;
    hide Spelled;
    assert p in sv.files ==> Ver(sv, p) != 0;
    var told, hit := Lookup(sv, p), Hit(px.store.order, p, Ver(sv, p));
    if hit.Some? {
      InExcept(px.store.order, {hit.value});
      ExceptNoDup(px.store.order, {hit.value});
      GrantWriterOnDisk(told, px.(store := Touch(px.store, hit.value)), max, p, Ver(sv, p), FileOf(px.store.disk, hit.value));
    } else {
      var made, v := Create(told, p), if p in sv.files then Ver(sv, p) else 1;
      var r := Fetch(px.store, max, Shared(p, v), FileBytes(made, p)).store;
      assert OnDisk(made, px.store);
      FetchOnDisk(made, px.store, max, Shared(p, v), FileBytes(made, p));
      GrantWriterOnDisk(made, px.(store := r), max, p, v, Overlay(FileOf(px.store.disk, Shared(p, v)), FileBytes(made, p)));
    }
  }

  lemma CloseReaderOnDisk(sv: ServerState, px: ProxyState, fd: nat, k: Key)
    requires NoDup(px.store.order) && OnDisk(sv, px.store)
    ensures OnDisk(sv, CloseReader(px, fd, k).0.store)
  {
    hide CheckStale;
    var st0 := Touch(px.store, k);
    InExcept(px.store.order, {k});
    ExceptNoDup(px.store.order, {k});
    var st1 := Unpin(st0, k);
    CheckStalePrunes(st1, k);
    var st2 := CheckStale(st1, k).store;
    PrunedOnDisk(sv, st1, st2, None);
    CheckStalePrunes(st2, k);
    PrunedOnDisk(sv, st2, CheckStale(st2, k).store, None);
  }

  lemma CloseWriterOnDisk(sv: ServerState, px: ProxyState, max: int, fd: nat, p: string, v: nat)
    requires NoDup(px.store.order) && OnDisk(sv, px.store) && EntriesHaveFiles(sv)
    requires Private(p, v, fd) in px.store.disk ==> p in sv.versions
    ensures var o := CloseWriter(sv, px, max, fd, p, v); OnDisk(o.server, o.proxy.store)
  {
    hide Reserve;
    hide FileServer.Push;
    hide RemoveWriter;
    hide Overlay;
    var mine, next := Private(p, v, fd), Shared(p, v + 1);
    if mine in px.store.disk {
      var data, r := px.store.disk[mine], Reserve(px.store, max, next);
      ReservePrunes(px.store, max, next);
      if r.ok {
        PushKeepsEntries(sv, p, data, 0);
        PushNeedsEntry(sv, p, data);
        DeliversStore(px.store, r.store, next, mine, data);
      }
    }
  }

  lemma PushNeedsEntry(sv: ServerState, p: string, data: Content)
    requires p in sv.versions
    ensures Push(sv, p, data, 0).ok
  {
    if data != [] {
      WriteBack(sv, p, data);
    }
  }

  lemma StepKept(sys: System, e: Event)
    requires SystemCoherent(sys) && SystemKept(sys) && Orderly(sys, e)
    ensures SystemKept(Step(sys, e))
  {
    hide Fits;
    hide WriterFits;
    hide Open;
    hide CloseReader;
    hide CloseWriter;
    var sv, px, max := sys.server, sys.proxies[e.proxy], sys.budgets[e.proxy];
    CallKeepsEntries(sv, px, max, e.call);
    assert Coherent(sv, px) && OnDisk(sv, px.store);
    match e.call {
      case OpenCall(path, mode) => OpenOnDisk(sv, px, max, path, mode);
      case CloseCall(fd) =>
        if fd in px.sessions {
          match px.sessions[fd]
          case Reader(k, _) => CloseReaderOnDisk(sv, px, fd, k);
          case Writer(p, v, _) => CloseWriterOnDisk(sv, px, max, fd, p, v);
        }
      case WriteCall(_, _) =>
      case ReadCall(_, _) =>
      case LseekCall(_, _, _) =>
      case UnlinkCall(_) =>
    }
  }

  lemma {:induction false} RunsAreKept(sys: System, events: seq<Event>)
    requires Initial(sys) && Addressed(sys, events) && OrderlyRun(sys, events)
    ensures SystemCoherent(Run(sys, events)) && SystemKept(Run(sys, events))
  {
    hide Step;
    hide SystemCoherent;
    hide SystemKept;
    if events == [] {
      StartIsKept(sys);
    } else {
      var front, last := events[..|events| - 1], events[|events| - 1];
      assert forall n :: 0 <= n <= |front| ==> front[..n] == events[..n];
      RunsAreKept(sys, front);
      StepCoherent(Run(sys, front), last);
      StepKept(Run(sys, front), last);
    }
  }

  lemma StartIsKept(sys: System)
    requires Initial(sys)
    ensures SystemCoherent(sys) && SystemKept(sys)
  {
    InitialCoherent(sys);
  }

  /** Coherence over every orderly run of any number of proxies, whatever paths
      they open: no cached version is ahead of the server's, and a cached copy of
      the server's version holds the server's bytes. */
  lemma RunsAreCoherent(sys: System, events: seq<Event>)
    requires Initial(sys) && Addressed(sys, events) && OrderlyRun(sys, events)
    ensures SystemCoherent(Run(sys, events))
    ensures forall i, p: string, v: nat :: 0 <= i < |sys.proxies| ==>
      var end := Run(sys, events); var st := end.proxies[i].store;
      Shared(p, v) in st.order ==>
        (v <= Ver(end.server, p) && Shared(p, v) in st.disk
        && (v == Ver(end.server, p) ==> st.disk[Shared(p, v)] == FileBytes(end.server, p)))
  {
    RunsAreKept(sys, events);
    var end := Run(sys, events);
    hide Run;
    forall i, p: string, v: nat | 0 <= i < |sys.proxies| && Shared(p, v) in end.proxies[i].store.order
      ensures v <= Ver(end.server, p) && Shared(p, v) in end.proxies[i].store.disk
      ensures v == Ver(end.server, p) ==> end.proxies[i].store.disk[Shared(p, v)] == FileBytes(end.server, p)
    {
      assert Coherent(end.server, end.proxies[i]) && OnDisk(end.server, end.proxies[i].store);
      assert Fits(end.server, end.proxies[i].store, p, v);
    }
  }

  /** A write close that completes, after any orderly run: the server's file is
      the private copy over its old bytes, exactly the private copy if no other
      close came between; the version grows by one per chunk. */
  lemma CloseWritesBack(sys: System, events: seq<Event>, i: nat, fd: nat)
    requires Initial(sys) && Addressed(sys, events) && OrderlyRun(sys, events) && i < |sys.proxies|
    requires var end := Run(sys, events); var px := end.proxies[i];
      Orderly(end, Event(i, CloseCall(fd))) && Respond(end, Event(i, CloseCall(fd))).reply == Done
      && fd in px.sessions && px.sessions[fd].Writer?
    ensures var end := Run(sys, events); var px := end.proxies[i]; var p, v := px.sessions[fd].path, px.sessions[fd].ver;
      var o := Respond(end, Event(i, CloseCall(fd)));
      && Private(p, v, fd) in px.store.disk
      && var data := px.store.disk[Private(p, v, fd)];
      && o.server.files == end.server.files[p := Overlay(FileBytes(end.server, p), data)]
      && Ver(o.server, p) == Ver(end.server, p) + Chunks(|data|)
      && (v == Ver(end.server, p) ==> o.server.files[p] == data)
  {
    RunsAreKept(sys, events);
    var end := Run(sys, events);
    hide Run;
    hide Reserve;
    hide FileServer.Push;
    var px := end.proxies[i];
    var p, v := px.sessions[fd].path, px.sessions[fd].ver;
    assert WriterFits(end.server, px.store, fd, p, v);
    WriteBack(end.server, p, px.store.disk[Private(p, v, fd)]);
  }

  /** Which opens see the server's bytes: those of a file the server has, those
      that no cached name answers, and writers that get an empty file from one. */
  predicate ServesCurrent(sv: ServerState, px: ProxyState, p: string, mode: OpenMode) {
    var hit := Spelled(px.store.order, p);
    p in sv.files || hit.None? || (mode != READ && FileOf(px.store.disk, hit.value) == [])
  }

  // An open of an absent file whose path is the name of a cached entry.
  lemma OpenSpelled(sv: ServerState, px: ProxyState, max: int, p: string, mode: OpenMode)
    requires ServerOk(sv) && Coherent(sv, px) && p !in sv.files && Spelled(px.store.order, p).Some?
    ensures var o, hit := Open(sv, px, max, p, mode), Spelled(px.store.order, p).value;
      && o.server == sv
      && o.reply == (if mode == CREATE_NEW then Failed(EEXIST) else Opened(px.nextFd))
      && (mode == READ ==>
            px.nextFd in o.proxy.sessions && o.proxy.sessions[px.nextFd] == Reader(hit, 0)
            && o.proxy.store.disk == px.store.disk)
      && (o.reply.Opened? ==>
            (SeesCurrent(o.server, o.proxy, o.reply.fd, p) <==> mode != READ && FileOf(px.store.disk, hit) == []))
  {
    hide CacheSpec.Put;
    hide Render;
    hide Spelled;
    var hit := Spelled(px.store.order, p).value;
    var touched := px.(store := Touch(px.store, hit));
    InExcept(px.store.order, {hit});
    TouchFits(sv, px.store, hit);
    StoreChangeCoherent(sv, px, touched.store);
    if mode == READ {
      assert hit.path != p by { LongerThanItsPath(hit); }
    } else {
      GrantWriterCoherent(sv, touched, max, p, 0, FileOf(px.store.disk, hit));
    }
  }

  lemma LongerThanItsPath(k: Key)
    ensures |Render(k)| > |k.path|
  {
  }

  /** After any orderly run, the exact condition under which an open serves the
      server's current bytes, through a read descriptor and through a private copy
      alike. The exception is a file that the server does not have and whose path
      is spelled like a cached entry: such an open succeeds in every mode but
      CREATE_NEW, and sees the bytes of that entry. */
  lemma OpensServeCurrentBytes(sys: System, events: seq<Event>, i: nat, p: string, mode: OpenMode)
    requires Initial(sys) && Addressed(sys, events) && OrderlyRun(sys, events) && i < |sys.proxies|
    ensures var end := Run(sys, events); var px, o := end.proxies[i], Respond(end, Event(i, OpenCall(p, mode)));
      && (o.reply.Opened? ==>
            (SeesCurrent(o.server, o.proxy, o.reply.fd, p) <==> ServesCurrent(end.server, px, p, mode)))
      && (p !in end.server.files && Spelled(px.store.order, p).Some? ==> (o.reply.Opened? <==> mode != CREATE_NEW))
  {
    RunsAreKept(sys, events);
    var end := Run(sys, events);
    hide Run;
    hide Open;
    assert p !in end.server.files ==> p !in end.server.versions;
    assert OnDisk(end.server, end.proxies[i].store);
    var px := end.proxies[i];
    if p in end.server.files || Spelled(px.store.order, p).None? {
      OpenCoherent(end.server, px, end.budgets[i], p, mode);
    } else {
      OpenSpelled(end.server, px, end.budgets[i], p, mode);
    }
  }
}
