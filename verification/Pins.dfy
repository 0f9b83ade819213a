/** Pins, accounting and snapshots: what every proxy's cache keeps over every run
    of any number of proxies, whatever paths they open, whatever is unlinked and
    whichever calls fail. */
module Pins {
  import opened Options
  import opened Bytes
  import opened CacheKeys
  import opened CacheSpec
  import opened FileServer
  import opened ProxySpec
  import opened Coherence

  // ---- the invariant of one proxy

  ghost function ReadersOf(sessions: map<nat, Session>, k: Key): set<nat> {
    set fd | fd in sessions && sessions[fd].Reader? && sessions[fd].key == k
  }

  ghost predicate IsWriter(sessions: map<nat, Session>, k: Key) {
    k.Private? && k.fd in sessions && sessions[k.fd].Writer?
    && sessions[k.fd].path == k.path && sessions[k.fd].ver == k.ver
  }

  /** The client count an entry should have: the open read descriptors on it, and
      one for the write descriptor it belongs to. */
  ghost function Expected(sessions: map<nat, Session>, k: Key): nat {
    |ReadersOf(sessions, k)| + if IsWriter(sessions, k) then 1 else 0
  }

  ghost predicate PinsMatch(px: ProxyState) {
    forall k :: Pins(px.store, k) == Expected(px.sessions, k)
  }

  /** Descriptors, and those in the names of private copies, are below the next. */
  ghost predicate FdsBelow(px: ProxyState) {
    && (forall fd :: fd in px.sessions ==> fd < px.nextFd)
    && (forall k :: k in px.store.order && k.Private? ==> k.fd < px.nextFd)
    && (forall fd :: fd in px.sessions && px.sessions[fd].Reader? && px.sessions[fd].key.Private? ==>
          px.sessions[fd].key.fd < px.nextFd)
  }

  /** Every shared entry with a client is cached, and so is the private copy of
      every write descriptor. The private copy of a closed descriptor is not, even
      if a read descriptor that opened it by its name is still there. */
  ghost predicate PinnedAreCached(px: ProxyState) {
    forall k :: Pins(px.store, k) > 0 && (k.Shared? || IsWriter(px.sessions, k)) ==> k in px.store.order
  }

  ghost predicate Sound(px: ProxyState) {
    NoDup(px.store.order) && FdsBelow(px) && PinsMatch(px) && PinnedAreCached(px)
  }

  // An open descriptor pins its entry.
  lemma OpenPins(px: ProxyState, fd: nat)
    requires Sound(px) && fd in px.sessions
    ensures Pins(px.store, KeyOf(px.sessions[fd], fd)) > 0
  {
    var k := KeyOf(px.sessions[fd], fd);
    assert px.sessions[fd].Reader? ==> fd in ReadersOf(px.sessions, k);
  }

  // ---- accounting

  /** The size is the total of the cached files less g bytes. */
  ghost predicate Accounts(st: Store, g: int) {
    st.size == Int32(Total(st.order, st.disk) - g)
  }

  /** From a to b the size moves with the total, but for d bytes. */
  ghost predicate Balanced(a: Store, b: Store, d: int) {
    b.size == Int32(a.size - Total(a.order, a.disk) + Total(b.order, b.disk) - d)
  }

  lemma BalanceAccounts(a: Store, b: Store, g: int, d: int)
    requires Accounts(a, g) && Balanced(a, b, d)
    ensures Accounts(b, g + d)
  {
    Int32Sum(Total(a.order, a.disk) - g, Total(b.order, b.disk) - Total(a.order, a.disk) - d);
  }

  lemma BalanceTwice(a: Store, b: Store, c: Store, d: int, e: int)
    requires Balanced(a, b, d) && Balanced(b, c, e)
    ensures Balanced(a, c, d + e)
  {
    Int32Sum(a.size - Total(a.order, a.disk) + Total(b.order, b.disk) - d,
             Total(c.order, c.disk) - Total(b.order, b.disk) - e);
  }

  lemma SameBalanced(a: Store, b: Store)
    requires a.size == b.size && a.order == b.order && a.disk == b.disk
    ensures Balanced(a, b, 0)
  {
  }

  lemma {:induction false} TotalUpdate(order: seq<Key>, disk: map<Key, Content>, k: Key, file: Content)
    requires NoDup(order) && k in order
    ensures Total(order, disk[k := file]) == Total(order, disk) - Length(disk, k) + |file|
  {
    if order[0] == k {
      assert k !in order[1..];
      TotalFrame(order[1..], disk, disk[k := file]);
    } else {
      TotalUpdate(order[1..], disk, k, file);
    }
  }

  // Changing a file, and the size by n.
  lemma FileBalances(st: Store, k: Key, file: Content, n: int)
    requires NoDup(st.order)
    ensures Balanced(st, st.(disk := st.disk[k := file], size := Int32(st.size + n)),
      (if k in st.order then |file| - Length(st.disk, k) else 0) - n)
  {
    if k in st.order {
      TotalUpdate(st.order, st.disk, k, file);
    } else {
      TotalFrame(st.order, st.disk, st.disk[k := file]);
    }
  }

  // ---- one store operation

  /** b has lost unpinned entries of a, and possibly gained the entry k; counts and
      pinned files are as they were. */
  ghost predicate Sheds(a: Store, b: Store, k: Option<Key>) {
    && NoDup(b.order)
    && (k.Some? ==> k.value in b.order)
    && (forall x :: x in b.order ==> x in a.order || k == Some(x))
    && (forall x :: Pins(b, x) == Pins(a, x))
    && (forall x :: x in a.order && Pins(a, x) > 0 ==> x in b.order)
    && (forall x :: x in a.disk && Pins(a, x) > 0 ==> x in b.disk && b.disk[x] == a.disk[x])
  }

  lemma ShedsTwice(a: Store, b: Store, c: Store, k: Option<Key>)
    requires Sheds(a, b, None) && Sheds(b, c, k)
    ensures Sheds(a, c, k)
  {
  }

  lemma SweepSheds(st: Store, name: Key)
    requires NoDup(st.order)
    ensures var r := CheckStale(st, name).store;
      && Sheds(st, r, None) && Balanced(st, r, 0) && r.clients == st.clients
      && (name in st.order ==> name in r.order) && (name in st.disk ==> name in r.disk && r.disk[name] == st.disk[name])
      && (name !in st.order ==> name !in r.order)
  {
    hide Total;
    hide Int32;
    hide Except;
    hide CheckStale;
    var gone := CheckStaleRemoves(st, name);
    RemovalKeeps(st, gone);
  }

  lemma TouchSheds(st: Store, k: Key)
    requires NoDup(st.order)
    ensures Sheds(st, Touch(st, k), None) && Balanced(st, Touch(st, k), 0) && Touch(st, k).clients == st.clients
  {
    hide Total;
    hide Except;
    if k in st.order {
      MoveLast(st.order, k);
      ExceptNone(st.order, {});
      TotalExcept(st.order, {}, k, st.disk);
      assert {} + {k} == {k};
      TotalAppend(Except(st.order, {k}), [k], st.disk);
      assert Total([k], st.disk) == Length(st.disk, k) by { OneTotal(k, st.disk); }
    }
  }

  lemma OneTotal(k: Key, disk: map<Key, Content>)
    ensures Total([k], disk) == Length(disk, k)
  {
  }

  /** What a put leaves unbilled: it charges the length of the file, but the total
      grows by it only when the entry is new and nothing is raised. */
  function PutDebt(st: Store, max: int, k: Key): int {
    if Put(st, max, k).ok && k !in st.order then 0 else 0 - Length(st.disk, k)
  }

  lemma PutSheds(st: Store, max: int, k: Key)
    requires NoDup(st.order)
    ensures var r := Put(st, max, k);
      Sheds(st, r.store, if r.ok then Some(k) else None) && Balanced(st, r.store, PutDebt(st, max, k))
  {
    hide CacheSpec.Put;
    hide Total;
    hide Int32;
    var _ := PutKeeps(st, max, k);
  }

  // ---- descriptors come and go

  lemma ReaderArrives(sessions: map<nat, Session>, fd: nat, k: Key)
    requires fd !in sessions
    ensures var more := sessions[fd := Reader(k, 0)];
      forall x :: Expected(more, x) == Expected(sessions, x) + if x == k then 1 else 0
  {
    var more := sessions[fd := Reader(k, 0)];
    forall x
      ensures Expected(more, x) == Expected(sessions, x) + if x == k then 1 else 0
    {
      assert ReadersOf(more, x) == ReadersOf(sessions, x) + if x == k then {fd} else {};
    }
  }

  lemma WriterArrives(sessions: map<nat, Session>, fd: nat, p: string, v: nat)
    requires fd !in sessions
    ensures var more := sessions[fd := Writer(p, v, 0)];
      forall x :: Expected(more, x) == Expected(sessions, x) + if x == Private(p, v, fd) then 1 else 0
  {
    var more := sessions[fd := Writer(p, v, 0)];
    forall x
      ensures Expected(more, x) == Expected(sessions, x) + if x == Private(p, v, fd) then 1 else 0
    {
      assert ReadersOf(more, x) == ReadersOf(sessions, x);
    }
  }

  lemma DescriptorLeaves(sessions: map<nat, Session>, fd: nat)
    requires fd in sessions
    ensures forall x ::
      Expected(sessions, x) == Expected(sessions - {fd}, x) + if x == KeyOf(sessions[fd], fd) then 1 else 0
  {
    var fewer := sessions - {fd};
    forall x
      ensures Expected(sessions, x) == Expected(fewer, x) + if x == KeyOf(sessions[fd], fd) then 1 else 0
    {
      if sessions[fd].Reader? && sessions[fd].key == x {
        assert ReadersOf(sessions, x) == ReadersOf(fewer, x) + {fd};
      } else {
        assert ReadersOf(sessions, x) == ReadersOf(fewer, x);
      }
    }
  }

  lemma DescriptorMoves(sessions: map<nat, Session>, fd: nat, pos: nat)
    requires fd in sessions
    ensures forall x :: Expected(sessions[fd := sessions[fd].(pos := pos)], x) == Expected(sessions, x)
  {
    var moved := sessions[fd := sessions[fd].(pos := pos)];
    forall x
      ensures Expected(moved, x) == Expected(sessions, x)
    {
      assert ReadersOf(moved, x) == ReadersOf(sessions, x);
    }
  }

  lemma ShedsSound(px: ProxyState, st: Store, k: Option<Key>)
    requires Sound(px) && Sheds(px.store, st, k)
    requires k.Some? && k.value.Private? ==> k.value.fd < px.nextFd
    ensures Sound(px.(store := st))
  {
    hide Expected;
  }

  // ---- what a call does

  /** Shared files with clients before and after keep their bytes, except the one
      that is written. */
  ghost predicate Stable(a: ProxyState, b: ProxyState, written: Option<Key>) {
    forall x: Key :: x.Shared? && x in a.store.disk && Pins(a.store, x) > 0 && Pins(b.store, x) > 0 && Some(x) != written ==>
      x in b.store.disk && b.store.disk[x] == a.store.disk[x]
  }

  /** A call leaves the proxy sound, d bytes unbilled, and pinned files alone. */
  ghost predicate Moves(a: ProxyState, b: ProxyState, written: Option<Key>, d: int) {
    Sound(b) && Balanced(a.store, b.store, d) && Stable(a, b, written)
  }

  lemma ShedsMoves(px: ProxyState, st: Store, k: Option<Key>, d: int)
    requires Sound(px) && Sheds(px.store, st, k) && Balanced(px.store, st, d)
    requires k.Some? && k.value.Private? ==> k.value.fd < px.nextFd
    ensures Moves(px, px.(store := st), None, d)
  {
    hide Balanced;
    ShedsSound(px, st, k);
  }

  lemma MovesTwice(a: ProxyState, b: ProxyState, c: ProxyState, d: int, e: int)
    requires Moves(a, b, None, d) && Moves(b, c, None, e)
    requires forall x :: Pins(a.store, x) > 0 && Pins(c.store, x) > 0 ==> Pins(b.store, x) > 0
    ensures Moves(a, c, None, d + e)
  {
    hide Sound;
    hide Balanced;
    BalanceTwice(a.store, b.store, c.store, d, e);
  }

  lemma NothingMoves(px: ProxyState)
    requires Sound(px)
    ensures Moves(px, px, None, 0)
  {
    SameBalanced(px.store, px.store);
  }

  lemma GrantReaderMoves(px: ProxyState, k: Key)
    requires Sound(px) && k in px.store.order
    ensures Moves(px, GrantReader(px, k), None, 0)
  {
    ReaderArrives(px.sessions, px.nextFd, k);
    SameBalanced(px.store, GrantReader(px, k).store);
    hide Balanced;
    hide Expected;
    forall x ensures IsWriter(GrantReader(px, k).sessions, x) == IsWriter(px.sessions, x) {
    }
  }

  lemma GrantWriterMoves(px: ProxyState, max: int, p: string, v: nat, base: Content)
    requires Sound(px)
    ensures Moves(px, GrantWriter(px, max, p, v, base), None, 0)
  {
    hide CacheSpec.Put;
    hide Overlay;
    hide Int32;
    hide Total;
    var k := Private(p, v, px.nextFd);
    NewIsUnpinned(px, p, v);
    var file := Overlay(FileOf(px.store.disk, k), base);
    var st1 := px.store.(disk := px.store.disk[k := file]);
    FileBalances(px.store, k, file, 0);
    Int32Zero(px.store.size);
    PutSheds(st1, max, k);
    PrivatePutIsOk(st1, max, k);
    var st2 := Put(st1, max, k).store;
    BalanceTwice(px.store, st1, st2, 0, 0);
    SameBalanced(st2, AddClient(st2, k));
    BalanceTwice(px.store, st2, AddClient(st2, k), 0, 0);
    hide Balanced;
    WriterJoins(px, st1, st2, p, v);
  }

  lemma Int32Zero(n: int32)
    ensures Int32(n + 0) == n
  {
  }

  lemma PrivatePutIsOk(st: Store, max: int, k: Key)
    requires k.Private?
    ensures Put(st, max, k).ok
  {
  }

  lemma NewIsUnpinned(px: ProxyState, p: string, v: nat)
    requires Sound(px)
    ensures var k := Private(p, v, px.nextFd); k !in px.store.order && Pins(px.store, k) == 0 && px.nextFd !in px.sessions
  {
    var k := Private(p, v, px.nextFd);
    assert ReadersOf(px.sessions, k) == {};
  }

  lemma WriterJoins(px: ProxyState, st1: Store, st2: Store, p: string, v: nat)
    requires Sound(px) && Sheds(st1, st2, Some(Private(p, v, px.nextFd)))
    requires st1.order == px.store.order && st1.clients == px.store.clients
    requires forall x: Key :: x.Shared? ==> (x in st1.disk <==> x in px.store.disk) && FileOf(st1.disk, x) == FileOf(px.store.disk, x)
    ensures var k := Private(p, v, px.nextFd);
      var px' := ProxyState(AddClient(st2, k), px.sessions[px.nextFd := Writer(p, v, 0)], px.nextFd + 1);
      Sound(px') && Stable(px, px', None)
  {
    NewIsUnpinned(px, p, v);
    WriterArrives(px.sessions, px.nextFd, p, v);
    hide Expected;
    var k := Private(p, v, px.nextFd);
    var more := px.sessions[px.nextFd := Writer(p, v, 0)];
    forall x ensures IsWriter(more, x) == (IsWriter(px.sessions, x) || x == k) {
    }
    var px' := ProxyState(AddClient(st2, k), more, px.nextFd + 1);
    assert forall x :: Pins(px'.store, x) == Pins(px.store, x) + if x == k then 1 else 0;
    assert FdsBelow(px') && PinnedAreCached(px') && PinsMatch(px');
  }

  // ---- open

  /** What a fetch leaves unbilled. */
  function FetchDebt(st: Store, max: int, k: Key, bytes: Content): int {
    if k in st.order then 0 - Length(st.disk, k)
    else if Fetch(st, max, k, bytes).ok then 0
    else 0 - |Overlay(FileOf(st.disk, k), bytes)|
  }

  lemma FetchMoves(px: ProxyState, max: int, k: Key, bytes: Content)
    requires Sound(px) && k.Shared? && (k in px.store.order ==> bytes == [])
    ensures var r := Fetch(px.store, max, k, bytes);
      && Moves(px, px.(store := r.store), None, FetchDebt(px.store, max, k, bytes))
      && (r.ok ==> k in r.store.order) && forall x :: Pins(r.store, x) == Pins(px.store, x)
  {
    hide CacheSpec.Put;
    hide Total;
    hide Int32;
    var st, file := px.store, Overlay(FileOf(px.store.disk, k), bytes);
    OverlayLonger(FileOf(st.disk, k), bytes);
    hide Overlay;
    var st1 := st.(disk := st.disk[k := file]);
    FileBalances(st, k, file, 0);
    Int32Zero(st.size);
    PutSheds(st1, max, k);
    var r := Put(st1, max, k);
    BalanceTwice(st, st1, r.store, if k in st.order then |file| - Length(st.disk, k) else 0, PutDebt(st1, max, k));
    hide Balanced;
    assert Sheds(st, r.store, if r.ok then Some(k) else None) by {
      assert Pins(st, k) > 0 ==> k in st.order;
      assert k in st.disk && Pins(st, k) > 0 ==> file == st.disk[k];
    }
    ShedsMoves(px, r.store, if r.ok then Some(k) else None, FetchDebt(st, max, k, bytes));
  }

  /** The entry an open fetches and the bytes it fetches for it, if it fetches. */
  function Fetched(sv: ServerState, px: ProxyState, p: string, mode: OpenMode): Option<Key> {
    var ver := Ver(sv, p);
    if Hit(px.store.order, p, ver).Some? then None
    else match mode
      case CREATE => Some(Shared(p, if ver == 0 then 1 else ver))
      case CREATE_NEW => if ver != 0 || Shared(p, 1) in px.store.disk then None else Some(Shared(p, 1))
      case _ => if ver == 0 then None else Some(Shared(p, ver))
  }

  function OpenDebt(sv: ServerState, px: ProxyState, max: int, p: string, mode: OpenMode): int {
    match Fetched(sv, px, p, mode)
    case None => 0
    case Some(k) => FetchDebt(px.store, max, k, FileBytes(sv, p))
  }

  lemma HitMoves(px: ProxyState, max: int, p: string, v: nat, k: Key, read: bool)
    requires Sound(px) && k in px.store.order
    ensures var touched := px.(store := Touch(px.store, k));
      Moves(px, if read then GrantReader(touched, k) else GrantWriter(touched, max, p, v, FileOf(px.store.disk, k)), None, 0)
  {
    hide Balanced;
    hide Stable;
    hide Sound;
    hide GrantReader;
    hide GrantWriter;
    hide Touch;
    SoundIsNoDup(px);
    TouchSheds(px.store, k);
    TouchHas(px.store, k);
    var touched := px.(store := Touch(px.store, k));
    ShedsMoves(px, touched.store, None, 0);
    if read {
      GrantReaderMoves(touched, k);
      MovesTwice(px, touched, GrantReader(touched, k), 0, 0);
    } else {
      GrantWriterMoves(touched, max, p, v, FileOf(px.store.disk, k));
      MovesTwice(px, touched, GrantWriter(touched, max, p, v, FileOf(px.store.disk, k)), 0, 0);
    }
  }

  lemma TouchHas(st: Store, k: Key)
    requires k in st.order
    ensures k in Touch(st, k).order
  {
  }

  lemma FetchThenWriteMoves(sv: ServerState, px: ProxyState, max: int, p: string, v: nat)
    requires Sound(px) && (Shared(p, v) in px.store.order ==> FileBytes(sv, p) == [])
    ensures var o := FetchThenWrite(sv, px, max, p, v);
      o.server == sv && Moves(px, o.proxy, None, FetchDebt(px.store, max, Shared(p, v), FileBytes(sv, p)))
  {
    hide Fetch;
    hide GrantWriter;
    hide Overlay;
    hide Sound;
    hide Stable;
    hide Balanced;
    hide FileBytes;
    FetchMoves(px, max, Shared(p, v), FileBytes(sv, p));
    var r := Fetch(px.store, max, Shared(p, v), FileBytes(sv, p));
    if r.ok {
      var base := Overlay(FileOf(px.store.disk, Shared(p, v)), FileBytes(sv, p));
      GrantWriterMoves(px.(store := r.store), max, p, v, base);
      MovesTwice(px, px.(store := r.store), GrantWriter(px.(store := r.store), max, p, v, base),
        FetchDebt(px.store, max, Shared(p, v), FileBytes(sv, p)), 0);
    }
  }

  lemma FetchThenReadMoves(px: ProxyState, max: int, k: Key, bytes: Content)
    requires Sound(px) && k.Shared? && k !in px.store.order
    ensures var r := Fetch(px.store, max, k, bytes);
      var px' := if r.ok then GrantReader(px.(store := r.store), k) else px.(store := r.store);
      Moves(px, px', None, FetchDebt(px.store, max, k, bytes))
  {
    hide Fetch;
    hide Sound;
    hide Stable;
    hide Balanced;
    hide FetchDebt;
    FetchMoves(px, max, k, bytes);
    var r := Fetch(px.store, max, k, bytes);
    if r.ok {
      GrantReaderMoves(px.(store := r.store), k);
      hide GrantReader;
      ReaderAddsPins(px.(store := r.store), k);
      MovesTwice(px, px.(store := r.store), GrantReader(px.(store := r.store), k), FetchDebt(px.store, max, k, bytes), 0);
    }
  }

  lemma ReaderAddsPins(px: ProxyState, k: Key)
    ensures forall x :: Pins(GrantReader(px, k).store, x) >= Pins(px.store, x)
  {
  }

  lemma OpenMoves(sv: ServerState, px: ProxyState, max: int, p: string, mode: OpenMode)
    requires ServerOk(sv) && Sound(px)
    ensures Moves(px, Open(sv, px, max, p, mode).proxy, None, OpenDebt(sv, px, max, p, mode))
  {
    hide Fetch;
    hide FetchThenWrite;
    hide GrantWriter;
    hide GrantReader;
    hide Spelled;
    hide Moves;
    hide FetchDebt;
    NothingMoves(px);
    var ver, told, hit := Ver(sv, p), Lookup(sv, p), Hit(px.store.order, p, Ver(sv, p));
    assert p in sv.files ==> ver > 0;
    if hit.Some? {
      HitMoves(px, max, p, ver, hit.value, mode == READ);
    } else if p !in sv.files {
      FetchThenWriteMoves(Create(told, p), px, max, p, 1);
    } else {
      FetchThenWriteMoves(told, px, max, p, ver);
      FetchThenReadMoves(px, max, Shared(p, ver), FileBytes(told, p));
    }
  }

  // ---- close of a read descriptor

  lemma CloseReaderMoves(px: ProxyState, fd: nat)
    requires Sound(px) && fd in px.sessions && px.sessions[fd].Reader?
    ensures var k := px.sessions[fd].key;
      Pins(px.store, k) > 0 && Moves(px, CloseReader(px, fd, k).0, None, 0)
  {
    hide CheckStale;
    hide Total;
    hide Int32;
    hide Touch;
    var k := px.sessions[fd].key;
    OpenPins(px, fd);
    var st0 := Touch(px.store, k);
    TouchSheds(px.store, k);
    var st1 := Unpin(st0, k);
    SameBalanced(st0, st1);
    BalanceTwice(px.store, st0, st1, 0, 0);
    SweepSheds(st1, k);
    var st2 := CheckStale(st1, k).store;
    BalanceTwice(px.store, st1, st2, 0, 0);
    SweepSheds(st2, k);
    var st3 := CheckStale(st2, k).store;
    BalanceTwice(px.store, st2, st3, 0, 0);
    hide Balanced;
    hide Touch;
    ReaderLeaves(px, fd, st0, st2);
    ShedsTwice(st1, st2, st3, None);
    ReaderLeaves(px, fd, st0, st3);
  }

  // Removing entries after a read descriptor has given back its pin.
  lemma ReaderLeaves(px: ProxyState, fd: nat, st0: Store, st: Store)
    requires Sound(px) && fd in px.sessions && px.sessions[fd].Reader? && Pins(px.store, px.sessions[fd].key) > 0
    requires Sheds(px.store, st0, None) && st0.clients == px.store.clients
    requires Sheds(Unpin(st0, px.sessions[fd].key), st, None)
    ensures var px' := px.(store := st, sessions := px.sessions - {fd});
      Sound(px') && Stable(px, px', None)
  {
    DescriptorLeaves(px.sessions, fd);
    hide Expected;
    var k, fewer := px.sessions[fd].key, px.sessions - {fd};
    forall x ensures IsWriter(fewer, x) ==> IsWriter(px.sessions, x) {
    }
  }

  // ---- close of a write descriptor

  /** What a reservation leaves unbilled: an entry that is cached already is
      charged again; a file found on disk is charged for nothing if the put
      raises. */
  function ReserveDebt(st: Store, max: int, k: Key): int {
    var once := CheckStale(st.(disk := st.disk[k := FileOf(st.disk, k)]), k);
    if once.ok && (k in st.order || !Reserve(st, max, k).ok) then 0 - Length(st.disk, k) else 0
  }

  lemma SameFileBalances(st: Store, k: Key)
    requires NoDup(st.order)
    ensures Balanced(st, st.(disk := st.disk[k := FileOf(st.disk, k)]), 0)
  {
    FileBalances(st, k, FileOf(st.disk, k), 0);
    Int32Zero(st.size);
  }

  /** The reserved store has lost unpinned entries, and perhaps gained k. */
  ghost predicate Reserves(st: Store, r: Store, k: Key) {
    && NoDup(r.order)
    && (forall x :: x in r.order ==> x in st.order || x == k)
    && (forall x :: Pins(r, x) == Pins(st, x))
    && (forall x :: x in st.order && Pins(st, x) > 0 ==> x in r.order)
    && (forall x :: x in st.disk && Pins(st, x) > 0 ==> x in r.disk && r.disk[x] == st.disk[x])
  }

  lemma ReserveSheds(st: Store, max: int, k: Key)
    requires NoDup(st.order)
    ensures var r := Reserve(st, max, k);
      && Reserves(st, r.store, k) && (r.ok ==> k in r.store.order)
      && Balanced(st, r.store, ReserveDebt(st, max, k))
  {
    hide CacheSpec.Put;
    hide CheckStale;
    hide Balanced;
    hide PutDebt;
    var made := st.(disk := st.disk[k := FileOf(st.disk, k)]);
    SameFileBalances(st, k);
    SweepSheds(made, k);
    var once := CheckStale(made, k);
    BalanceTwice(st, made, once.store, 0, 0);
    if once.ok {
      PutSheds(once.store, max, k);
      var r := Put(once.store, max, k);
      BalanceTwice(st, once.store, r.store, 0, PutDebt(once.store, max, k));
      SameDebt(st, once.store, max, k);
      SweptThenPut(st, once.store, r.store, k, if r.ok then Some(k) else None);
    } else {
      SweptThenPut(st, once.store, once.store, k, None);
    }
    hide Sheds;
    hide Reserves;
  }

  lemma SweptThenPut(st: Store, once: Store, r: Store, k: Key, gained: Option<Key>)
    requires Sheds(st.(disk := st.disk[k := FileOf(st.disk, k)]), once, None)
    requires (r == once && gained == None) || Sheds(once, r, gained)
    requires gained.Some? ==> gained.value == k
    ensures Reserves(st, r, k)
  {
  }

  lemma SameDebt(st: Store, once: Store, max: int, k: Key)
    requires var made := st.(disk := st.disk[k := FileOf(st.disk, k)]); CheckStale(made, k) == Swept(once, true)
    requires (k in once.order <==> k in st.order) && k in once.disk && once.disk[k] == FileOf(st.disk, k)
    ensures PutDebt(once, max, k) == ReserveDebt(st, max, k)
  {
    hide CacheSpec.Put;
    hide CheckStale;
  }

  /** What is left in the file of the next version when a close ends after the
      reservation: the private copy over what was there, or zeros for its first
      chunk if the push fails. */
  function Installed(sv: ServerState, p: string, data: Content, was: Content): Content {
    if Push(sv, p, data, 0).ok then Overlay(was, data) else Overlay(was, Zeros(|ChunkAt(data, 0)|))
  }

  /** The bytes by which a write close moves curr_size away from the total. */
  function CloseDebt(sv: ServerState, px: ProxyState, max: int, fd: nat): int
    requires fd in px.sessions && px.sessions[fd].Writer?
  {
    var p, v := px.sessions[fd].path, px.sessions[fd].ver;
    var mine, next := Private(p, v, fd), Shared(p, v + 1);
    if mine !in px.store.disk then 0
    else if !Reserve(px.store, max, next).ok then ReserveDebt(px.store, max, next)
    else
      var data := px.store.disk[mine];
      var was := FileOf(Reserve(px.store, max, next).store.disk, next);
      ReserveDebt(px.store, max, next) + |Installed(sv, p, data, was)|
        - if Push(sv, p, data, 0).ok then |data| else |was|
  }

  lemma ReservesMoves(px: ProxyState, r: Store, k: Key)
    requires Sound(px) && Reserves(px.store, r, k) && k.Shared?
    ensures Sound(px.(store := r)) && Stable(px, px.(store := r), None)
  {
    hide Expected;
  }

  // Changing a shared file that is the one written.
  lemma FileMoves(a: ProxyState, b: ProxyState, k: Key, file: Content, size: int32)
    requires Sound(b) && Stable(a, b, None)
    ensures var c := b.(store := b.store.(disk := b.store.disk[k := file], size := size));
      Sound(c) && Stable(a, c, Some(k))
  {
    hide Expected;
  }

  /** b is f without the entry k and its file, and with one pin of it less. */
  ghost predicate Parted(f: Store, b: Store, k: Key) {
    && NoDup(b.order) && b.clients == Unpin(f, k).clients
    && (forall x :: x in b.order <==> x in f.order && x != k)
    && b.disk == f.disk - {k}
  }

  lemma RemoveWriterParts(f: Store, k: Key)
    requires NoDup(f.order) && k in f.order
    ensures Parted(f, RemoveWriter(f, k), k) && Balanced(f, RemoveWriter(f, k), 0)
  {
    hide Total;
    hide Except;
    hide Int32;
    var one := Unpin(f, k);
    RemoveNone(one);
    DropIsRemoval(one, {}, k);
    assert {} + {k} == {k};
    RemovalKeeps(one, {k});
  }

  // The private copy leaves with its descriptor.
  lemma WriterLeaves(a: ProxyState, px: ProxyState, fd: nat, b: Store, written: Key)
    requires Sound(px) && Stable(a, px, Some(written)) && fd in px.sessions && px.sessions[fd].Writer?
    requires Parted(px.store, b, KeyOf(px.sessions[fd], fd)) && Pins(px.store, KeyOf(px.sessions[fd], fd)) > 0
    ensures var px' := px.(store := b, sessions := px.sessions - {fd});
      Sound(px') && Stable(a, px', Some(written))
  {
    DescriptorLeaves(px.sessions, fd);
    hide Expected;
    forall x ensures IsWriter(px.sessions - {fd}, x) ==> IsWriter(px.sessions, x) && x != KeyOf(px.sessions[fd], fd) {
    }
  }

  /** The bytes of the next version's file after the close of a write descriptor,
      if a client holds it. */
  function CloseLeaves(sv: ServerState, px: ProxyState, max: int, fd: nat): Content
    requires fd in px.sessions && px.sessions[fd].Writer?
  {
    var p, v := px.sessions[fd].path, px.sessions[fd].ver;
    var mine, file := Private(p, v, fd), FileOf(px.store.disk, Shared(p, v + 1));
    if mine in px.store.disk && Reserve(px.store, max, Shared(p, v + 1)).ok then Installed(sv, p, px.store.disk[mine], file)
    else file
  }

  /** What the close of a write descriptor does to its proxy. */
  ghost predicate WriterCloses(sv: ServerState, px: ProxyState, max: int, fd: nat, px': ProxyState)
    requires fd in px.sessions && px.sessions[fd].Writer?
  {
    var next := Shared(px.sessions[fd].path, px.sessions[fd].ver + 1);
    && Moves(px, px', Some(next), CloseDebt(sv, px, max, fd))
    && Pins(px'.store, next) == Pins(px.store, next)
    && (Pins(px.store, next) > 0 && next in px.store.disk ==>
          next in px'.store.disk && px'.store.disk[next] == CloseLeaves(sv, px, max, fd))
  }

  lemma CloseWriterMoves(sv: ServerState, px: ProxyState, max: int, fd: nat)
    requires Sound(px) && fd in px.sessions && px.sessions[fd].Writer?
    ensures Pins(px.store, KeyOf(px.sessions[fd], fd)) > 0
    ensures WriterCloses(sv, px, max, fd, CloseWriter(sv, px, max, fd, px.sessions[fd].path, px.sessions[fd].ver).proxy)
  {
    hide Reserve;
    hide ReserveDebt;
    hide FileServer.Push;
    hide Installed;
    OpenPins(px, fd);
    var p, v := px.sessions[fd].path, px.sessions[fd].ver;
    var mine, next := Private(p, v, fd), Shared(p, v + 1);
    if mine !in px.store.disk {
      NothingMoves(px);
    } else {
      var r := Reserve(px.store, max, next);
      ReserveSheds(px.store, max, next);
      hide Balanced;
      ReservesMoves(px, r.store, next);
      hide Sound;
      hide Stable;
      if r.ok {
        if Push(sv, p, px.store.disk[mine], 0).ok {
          DeliveredMoves(sv, px, max, fd, r.store);
        } else {
          PushFailsMoves(sv, px, max, fd, r.store);
        }
      }
    }
  }

  /** The close of a write descriptor has reserved the next version's entry. */
  ghost predicate HasReserved(px: ProxyState, max: int, fd: nat, r: Store)
    requires fd in px.sessions && px.sessions[fd].Writer?
  {
    var p, v := px.sessions[fd].path, px.sessions[fd].ver;
    var next := Shared(p, v + 1);
    && Private(p, v, fd) in px.store.disk && Reserve(px.store, max, next) == Swept(r, true)
    && Reserves(px.store, r, next) && next in r.order
    && Balanced(px.store, r, ReserveDebt(px.store, max, next))
    && Sound(px.(store := r)) && Stable(px, px.(store := r), None)
  }

  lemma PushFailsIs(sv: ServerState, px: ProxyState, max: int, fd: nat, r: Store)
    requires fd in px.sessions && px.sessions[fd].Writer? && HasReserved(px, max, fd, r)
    requires !Push(sv, px.sessions[fd].path, px.store.disk[KeyOf(px.sessions[fd], fd)], 0).ok
    ensures var p, v := px.sessions[fd].path, px.sessions[fd].ver;
      var data, next := px.store.disk[Private(p, v, fd)], Shared(p, v + 1);
      var was, zeros := FileOf(r.disk, next), Zeros(|ChunkAt(data, 0)|);
      && CloseWriter(sv, px, max, fd, p, v).proxy == px.(store := r.(disk := r.disk[next := Overlay(was, zeros)]))
      && CloseDebt(sv, px, max, fd) == ReserveDebt(px.store, max, next) + |Overlay(was, zeros)| - |was|
      && CloseLeaves(sv, px, max, fd) == Overlay(FileOf(px.store.disk, next), zeros)
  {
    hide Reserve;
    hide ReserveDebt;
    hide FileServer.Push;
    hide Sound;
    hide Stable;
    hide Balanced;
    hide Reserves;
    var p, v := px.sessions[fd].path, px.sessions[fd].ver;
    var data := px.store.disk[Private(p, v, fd)];
    PushFailsOnBytes(sv, p, data);
    ZerosWritten(FileOf(r.disk, Shared(p, v + 1)), ChunkAt(data, 0));
    hide Overlay;
    hide WriteAt;
  }

  lemma PushFailsMoves(sv: ServerState, px: ProxyState, max: int, fd: nat, r: Store)
    requires Sound(px) && fd in px.sessions && px.sessions[fd].Writer? && HasReserved(px, max, fd, r)
    requires !Push(sv, px.sessions[fd].path, px.store.disk[KeyOf(px.sessions[fd], fd)], 0).ok
    ensures WriterCloses(sv, px, max, fd, CloseWriter(sv, px, max, fd, px.sessions[fd].path, px.sessions[fd].ver).proxy)
  {
    hide CloseWriter;
    hide CloseDebt;
    hide CloseLeaves;
    hide Reserve;
    hide ReserveDebt;
    hide FileServer.Push;
    hide Overlay;
    hide Sound;
    hide Stable;
    hide Balanced;
    var p, v := px.sessions[fd].path, px.sessions[fd].ver;
    var data, next := px.store.disk[Private(p, v, fd)], Shared(p, v + 1);
    PushFailsIs(sv, px, max, fd, r);
    PushFailsOnBytes(sv, p, data);
    ZerosClose(px, r, next, Overlay(FileOf(r.disk, next), Zeros(|ChunkAt(data, 0)|)), ReserveDebt(px.store, max, next));
  }

  lemma SoundIsNoDup(px: ProxyState)
    requires Sound(px)
    ensures NoDup(px.store.order)
  {
  }

  lemma DeliveredIs(sv: ServerState, px: ProxyState, max: int, fd: nat, r: Store)
    requires fd in px.sessions && px.sessions[fd].Writer? && HasReserved(px, max, fd, r)
    requires Push(sv, px.sessions[fd].path, px.store.disk[KeyOf(px.sessions[fd], fd)], 0).ok
    ensures var p, v := px.sessions[fd].path, px.sessions[fd].ver;
      var mine, next := Private(p, v, fd), Shared(p, v + 1);
      var data, was := px.store.disk[mine], FileOf(r.disk, next);
      var f := r.(disk := r.disk[next := Overlay(was, data)], size := Int32(r.size + |data| - |was|));
      && CloseWriter(sv, px, max, fd, p, v).proxy == ProxyState(RemoveWriter(f, mine), px.sessions - {fd}, px.nextFd)
      && CloseDebt(sv, px, max, fd) == ReserveDebt(px.store, max, next) + |Overlay(was, data)| - |data|
      && CloseLeaves(sv, px, max, fd) == Overlay(FileOf(px.store.disk, next), data)
  {
    hide Reserve;
    hide ReserveDebt;
    hide FileServer.Push;
    hide Sound;
    hide Stable;
    hide Balanced;
    hide Reserves;
    hide Overlay;
    hide RemoveWriter;
  }

  lemma DeliveredMoves(sv: ServerState, px: ProxyState, max: int, fd: nat, r: Store)
    requires Sound(px) && fd in px.sessions && px.sessions[fd].Writer? && Pins(px.store, KeyOf(px.sessions[fd], fd)) > 0
    requires HasReserved(px, max, fd, r)
    requires Push(sv, px.sessions[fd].path, px.store.disk[KeyOf(px.sessions[fd], fd)], 0).ok
    ensures WriterCloses(sv, px, max, fd, CloseWriter(sv, px, max, fd, px.sessions[fd].path, px.sessions[fd].ver).proxy)
  {
    hide CloseWriter;
    hide CloseDebt;
    hide CloseLeaves;
    hide Reserve;
    hide ReserveDebt;
    hide FileServer.Push;
    hide Overlay;
    hide RemoveWriter;
    hide Sound;
    hide Stable;
    hide Balanced;
    var p, v := px.sessions[fd].path, px.sessions[fd].ver;
    var mine, next := Private(p, v, fd), Shared(p, v + 1);
    DeliveredIs(sv, px, max, fd, r);
    FilledClose(px, fd, r, next, px.store.disk[mine], ReserveDebt(px.store, max, next));
  }

  /** From a store in which k is reserved to a proxy in which it is written. */
  ghost predicate Writes(px: ProxyState, px': ProxyState, k: Key, file: Content, d: int) {
    && Moves(px, px', Some(k), d)
    && Pins(px'.store, k) == Pins(px.store, k)
    && k in px'.store.disk && px'.store.disk[k] == file
  }

  lemma ZerosClose(px: ProxyState, r: Store, k: Key, file: Content, d: int)
    requires Sound(px) && Reserves(px.store, r, k) && k in r.order && Balanced(px.store, r, d)
    requires Sound(px.(store := r)) && Stable(px, px.(store := r), None)
    ensures Writes(px, px.(store := r.(disk := r.disk[k := file])), k, file, d + |file| - |FileOf(r.disk, k)|)
  {
    SoundIsNoDup(px.(store := r));
    hide Sound;
    FileBalances(r, k, file, 0);
    Int32Zero(r.size);
    BalanceTwice(px.store, r, r.(disk := r.disk[k := file]), d, |file| - |FileOf(r.disk, k)|);
    hide Balanced;
    FileMoves(px, px.(store := r), k, file, r.size);
  }

  lemma FilledClose(px: ProxyState, fd: nat, r: Store, k: Key, data: Content, d: int)
    requires Sound(px) && fd in px.sessions && px.sessions[fd].Writer? && Pins(px.store, KeyOf(px.sessions[fd], fd)) > 0
    requires Reserves(px.store, r, k) && k in r.order && k.Shared? && Balanced(px.store, r, d)
    requires Sound(px.(store := r)) && Stable(px, px.(store := r), None)
    ensures var was := FileOf(r.disk, k);
      var f := r.(disk := r.disk[k := Overlay(was, data)], size := Int32(r.size + |data| - |was|));
      Writes(px, ProxyState(RemoveWriter(f, KeyOf(px.sessions[fd], fd)), px.sessions - {fd}, px.nextFd),
               k, Overlay(was, data), d + |Overlay(was, data)| - |data|)
  {
    hide Balanced;
    hide Overlay;
    hide RemoveWriter;
    hide Int32;
    var mine, was := KeyOf(px.sessions[fd], fd), FileOf(r.disk, k);
    MineIsCached(px, fd);
    SoundIsNoDup(px.(store := r));
    var file := Overlay(was, data);
    var f := r.(disk := r.disk[k := file], size := Int32(r.size + |data| - |was|));
    FillBalances(px.store, r, k, data, d);
    hide Sound;
    FileMoves(px, px.(store := r), k, file, f.size);
    RemoveWriterParts(f, mine);
    BalanceTwice(px.store, f, RemoveWriter(f, mine), d + |file| - |data|, 0);
    WriterLeaves(px, px.(store := f), fd, RemoveWriter(f, mine), k);
    hide Stable;
  }

  // Writing `data` over the reserved file.
  lemma FillBalances(st: Store, r: Store, k: Key, data: Content, d: int)
    requires NoDup(r.order) && k in r.order && Balanced(st, r, d)
    ensures var was := FileOf(r.disk, k);
      Balanced(st, r.(disk := r.disk[k := Overlay(was, data)], size := Int32(r.size + |data| - |was|)),
               d + |Overlay(was, data)| - |data|)
  {
    var was := FileOf(r.disk, k);
    var file := Overlay(was, data);
    hide Overlay;
    FileBalances(r, k, file, |data| - |was|);
    var f := r.(disk := r.disk[k := file], size := Int32(r.size + (|data| - |was|)));
    BalanceTwice(st, r, f, d, |file| - Length(r.disk, k) - (|data| - |was|));
  }

  lemma MineIsCached(px: ProxyState, fd: nat)
    requires Sound(px) && fd in px.sessions && px.sessions[fd].Writer?
    ensures KeyOf(px.sessions[fd], fd) in px.store.order
  {
    OpenPins(px, fd);
  }

  // ---- write, read, seek

  lemma PositionMoves(px: ProxyState, fd: nat, pos: nat)
    requires Sound(px) && fd in px.sessions
    ensures Moves(px, px.(sessions := px.sessions[fd := px.sessions[fd].(pos := pos)]), None, 0)
  {
    DescriptorMoves(px.sessions, fd, pos);
    SameBalanced(px.store, px.store);
    hide Expected;
    hide Balanced;
    var moved := px.sessions[fd := px.sessions[fd].(pos := pos)];
    forall x ensures IsWriter(moved, x) == IsWriter(px.sessions, x) {
    }
  }

  /** The bytes by which a write lengthens its private copy. */
  function Lengthened(px: ProxyState, fd: nat, buf: Content): int {
    if fd in px.sessions && px.sessions[fd].Writer? then
      var k := KeyOf(px.sessions[fd], fd);
      Length(Write(px, fd, buf).0.store.disk, k) - Length(px.store.disk, k)
    else 0
  }

  lemma WriteMoves(px: ProxyState, fd: nat, buf: Content)
    requires Sound(px)
    ensures Moves(px, Write(px, fd, buf).0, None, Lengthened(px, fd, buf))
  {
    hide WriteAt;
    hide Balanced;
    hide Sound;
    hide Stable;
    NothingMoves(px);
    if fd in px.sessions && px.sessions[fd].Writer? && KeyOf(px.sessions[fd], fd) in px.store.disk {
      var s, k := px.sessions[fd], KeyOf(px.sessions[fd], fd);
      var file := WriteAt(px.store.disk[k], s.pos, buf);
      PrivateFileMoves(px, fd, file);
      var filled := px.(store := px.store.(disk := px.store.disk[k := file]));
      PositionMoves(filled, fd, s.pos + |buf|);
      MovesTwice(px, filled, Write(px, fd, buf).0, |file| - Length(px.store.disk, k), 0);
    }
  }

  lemma PrivateFileMoves(px: ProxyState, fd: nat, file: Content)
    requires Sound(px) && fd in px.sessions && px.sessions[fd].Writer?
    ensures var k := KeyOf(px.sessions[fd], fd);
      Moves(px, px.(store := px.store.(disk := px.store.disk[k := file])), None, |file| - Length(px.store.disk, k))
  {
    var k := KeyOf(px.sessions[fd], fd);
    NothingMoves(px);
    MineIsCached(px, fd);
    FileBalances(px.store, k, file, 0);
    Int32Zero(px.store.size);
    hide Balanced;
    FileMoves(px, px, k, file, px.store.size);
    hide Sound;
  }

  lemma ReadMoves(px: ProxyState, fd: nat, n: nat)
    requires Sound(px)
    ensures Moves(px, Read(px, fd, n).0, None, 0)
  {
    hide Sound;
    hide Balanced;
    NothingMoves(px);
    if fd in px.sessions && KeyOf(px.sessions[fd], fd) in px.store.disk {
      var s := px.sessions[fd];
      PositionMoves(px, fd, s.pos + |Slice(px.store.disk[KeyOf(s, fd)], s.pos, n)|);
    }
  }

  lemma LseekMoves(px: ProxyState, fd: nat, offset: int, whence: Whence)
    requires Sound(px)
    ensures Moves(px, Lseek(px, fd, offset, whence).0, None, 0)
  {
    hide Sound;
    hide Balanced;
    NothingMoves(px);
    var (px', reply) := Lseek(px, fd, offset, whence);
    if reply.Count? {
      PositionMoves(px, fd, reply.n);
    }
  }

  // ---- every call

  /** The bytes by which a call moves curr_size away from the total. */
  function Unbilled(sv: ServerState, px: ProxyState, max: int, call: Call): int {
    match call
    case OpenCall(p, mode) => OpenDebt(sv, px, max, p, mode)
    case CloseCall(fd) => if fd in px.sessions && px.sessions[fd].Writer? then CloseDebt(sv, px, max, fd) else 0
    case WriteCall(fd, buf) => Lengthened(px, fd, buf)
    case _ => 0
  }

  /** The entry a call writes in place. */
  function Written(px: ProxyState, call: Call): Option<Key> {
    if call.CloseCall? && call.fd in px.sessions && px.sessions[call.fd].Writer? then
      Some(Shared(px.sessions[call.fd].path, px.sessions[call.fd].ver + 1))
    else None
  }

  /** The bytes a call leaves in a shared file that a client holds throughout. */
  function BytesAfter(sv: ServerState, px: ProxyState, max: int, call: Call, k: Key): Content {
    if Written(px, call) == Some(k) then CloseLeaves(sv, px, max, call.fd) else FileOf(px.store.disk, k)
  }

  lemma InvokeMoves(sv: ServerState, px: ProxyState, max: int, call: Call)
    requires ServerOk(sv) && Sound(px)
    ensures var px' := Invoke(sv, px, max, call).proxy;
      && Moves(px, px', Written(px, call), Unbilled(sv, px, max, call))
      && (forall k: Key :: k.Shared? && k in px.store.disk && Pins(px.store, k) > 0 && Pins(px'.store, k) > 0 ==>
            k in px'.store.disk && px'.store.disk[k] == BytesAfter(sv, px, max, call, k))
  {
    hide Open;
    hide OpenDebt;
    hide ProxySpec.CloseReader;
    hide ProxySpec.CloseWriter;
    hide CloseDebt;
    hide CloseLeaves;
    hide ProxySpec.Write;
    hide ProxySpec.Read;
    hide ProxySpec.Lseek;
    hide Lengthened;
    hide Sound;
    hide Balanced;
    match call {
      case OpenCall(p, mode) => OpenMoves(sv, px, max, p, mode);
      case CloseCall(fd) =>
        NothingMoves(px);
        if fd in px.sessions {
          match px.sessions[fd]
          case Reader(k, _) => CloseReaderMoves(px, fd);
          case Writer(p, v, _) => CloseWriterMoves(sv, px, max, fd);
        }
      case WriteCall(fd, buf) => WriteMoves(px, fd, buf);
      case ReadCall(fd, n) => ReadMoves(px, fd, n);
      case LseekCall(fd, offset, whence) => LseekMoves(px, fd, offset, whence);
      case UnlinkCall(_) => NothingMoves(px);
    }
  }

  // ---- steps and runs

  lemma InvokeServerOk(sv: ServerState, px: ProxyState, max: int, call: Call)
    requires ServerOk(sv)
    ensures ServerOk(Invoke(sv, px, max, call).server)
  {
    hide Fetch;
    hide GrantWriter;
    hide GrantReader;
    hide Hit;
    hide Reserve;
    hide FileServer.Push;
    if call.CloseCall? && call.fd in px.sessions && px.sessions[call.fd].Writer? {
      var s := px.sessions[call.fd];
      PushServerOk(sv, s.path, FileOf(px.store.disk, KeyOf(s, call.fd)), 0);
    }
  }

  lemma {:induction false} PushServerOk(sv: ServerState, p: string, data: Content, pos: nat)
    requires ServerOk(sv)
    ensures ServerOk(Push(sv, p, data, pos).server)
    decreases |data| - pos
  {
    hide WriteAt;
    if pos < |data| {
      var u := Update(sv, p, ChunkAt(data, pos), pos);
      if u.ok {
        PushServerOk(u.server, p, data, pos + |ChunkAt(data, pos)|);
      }
    }
  }

  ghost predicate SystemSound(sys: System) {
    && Sized(sys) && ServerOk(sys.server)
    && forall i :: 0 <= i < |sys.proxies| ==> Sound(sys.proxies[i])
  }

  lemma StepSound(sys: System, e: Event)
    requires SystemSound(sys) && e.proxy < |sys.proxies|
    ensures SystemSound(Step(sys, e))
  {
    hide Invoke;
    hide Sound;
    hide Balanced;
    hide Stable;
    hide Unbilled;
    hide BytesAfter;
    InvokeMoves(sys.server, sys.proxies[e.proxy], sys.budgets[e.proxy], e.call);
    InvokeServerOk(sys.server, sys.proxies[e.proxy], sys.budgets[e.proxy], e.call);
  }

  lemma {:induction false} RunsAreSound(sys: System, events: seq<Event>)
    requires Initial(sys) && Addressed(sys, events)
    ensures SystemSound(Run(sys, events))
  {
    hide Step;
    hide SystemSound;
    if events == [] {
      StartIsSound(sys);
    } else {
      var front := events[..|events| - 1];
      RunsAreSound(sys, front);
      StepSound(Run(sys, front), events[|events| - 1]);
    }
  }

  lemma StartIsSound(sys: System)
    requires Initial(sys)
    ensures SystemSound(sys)
  {
    forall k ensures Expected(FRESH.sessions, k) == 0 {
      assert ReadersOf(FRESH.sessions, k) == {};
    }
  }

  /** Pin safety over every run: at every proxy the client count of an entry is the
      number of its open read descriptors, plus one for the write descriptor it
      belongs to; so the count of an open descriptor's entry is positive, and no
      close meets the clamp at zero. Every shared entry with a client is cached, and
      the private copy of every write descriptor. */
  lemma RunsArePinSafe(sys: System, events: seq<Event>, i: nat)
    requires Initial(sys) && Addressed(sys, events) && i < |sys.proxies|
    ensures var px := Run(sys, events).proxies[i];
      && (forall k :: Pins(px.store, k) == Expected(px.sessions, k))
      && (forall fd :: fd in px.sessions ==> Pins(px.store, KeyOf(px.sessions[fd], fd)) > 0)
      && (forall k :: Pins(px.store, k) > 0 && (k.Shared? || IsWriter(px.sessions, k)) ==> k in px.store.order)
  {
    RunsAreSound(sys, events);
    hide Run;
    hide Expected;
    var px := Run(sys, events).proxies[i];
    assert Sound(px);
    forall fd | fd in px.sessions ensures Pins(px.store, KeyOf(px.sessions[fd], fd)) > 0 {
      OpenPins(px, fd);
    }
  }

  /** The bytes left unbilled at proxy i over a run. */
  function UnbilledOver(sys: System, events: seq<Event>, i: nat): int
    requires Sized(sys) && Addressed(sys, events) && i < |sys.proxies|
  {
    if events == [] then 0
    else
      var front, last := events[..|events| - 1], events[|events| - 1];
      var mid := Run(sys, front);
      UnbilledOver(sys, front, i) +
        if last.proxy == i then Unbilled(mid.server, mid.proxies[i], sys.budgets[i], last.call) else 0
  }

  lemma RunKeepsBudgets(sys: System, events: seq<Event>)
    requires Sized(sys) && Addressed(sys, events)
    ensures Run(sys, events).budgets == sys.budgets
  {
    hide Respond;
    if events != [] {
      RunKeepsBudgets(sys, events[..|events| - 1]);
    }
  }

  lemma LastStep(sys: System, events: seq<Event>, i: nat)
    requires Sized(sys) && Addressed(sys, events) && events != [] && i < |sys.proxies|
    ensures var front, last := events[..|events| - 1], events[|events| - 1]; var mid := Run(sys, front);
      && Run(sys, events) == Step(mid, last)
      && UnbilledOver(sys, events, i) == UnbilledOver(sys, front, i) +
           if last.proxy == i then Unbilled(mid.server, mid.proxies[i], sys.budgets[i], last.call) else 0
  {
    hide Step;
    hide Unbilled;
  }

  lemma StepBalances(sys: System, e: Event, i: nat, g: int)
    requires SystemSound(sys) && e.proxy < |sys.proxies| && i < |sys.proxies|
    requires Accounts(sys.proxies[i].store, g)
    ensures Accounts(Step(sys, e).proxies[i].store,
      g + if e.proxy == i then Unbilled(sys.server, sys.proxies[i], sys.budgets[i], e.call) else 0)
  {
    hide Unbilled;
    hide Stable;
    hide Invoke;
    hide Sound;
    hide Balanced;
    hide Accounts;
    hide BytesAfter;
    if e.proxy == i {
      InvokeMoves(sys.server, sys.proxies[i], sys.budgets[i], e.call);
      BalanceAccounts(sys.proxies[i].store, Step(sys, e).proxies[i].store, g,
        Unbilled(sys.server, sys.proxies[i], sys.budgets[i], e.call));
    }
  }

  /** The accounting law over every run: curr_size is, in 32-bit arithmetic, the
      total length of the cached files less the bytes left unbilled so far. */
  lemma {:induction false} RunsBalance(sys: System, events: seq<Event>, i: nat)
    requires Initial(sys) && Addressed(sys, events) && i < |sys.proxies|
    ensures Accounts(Run(sys, events).proxies[i].store, UnbilledOver(sys, events, i))
  {
    hide Run;
    hide UnbilledOver;
    hide Step;
    hide SystemSound;
    hide Accounts;
    hide Unbilled;
    if events == [] {
      StartBalances(sys, i);
    } else {
      var front := events[..|events| - 1];
      LastStep(sys, events, i);
      RunsAreSound(sys, front);
      RunsBalance(sys, front, i);
      RunKeepsBudgets(sys, front);
      StepBalances(Run(sys, front), events[|events| - 1], i, UnbilledOver(sys, front, i));
    }
  }

  lemma StartBalances(sys: System, i: nat)
    requires Initial(sys) && i < |sys.proxies|
    ensures Accounts(Run(sys, []).proxies[i].store, UnbilledOver(sys, [], i))
  {
  }

  // ---- snapshots

  ghost predicate ReadsKey(px: ProxyState, fd: nat, k: Key) {
    fd in px.sessions && px.sessions[fd].Reader? && px.sessions[fd].key == k
  }

  /** The bytes an event leaves in a file held at proxy i. */
  function BytesAfterEvent(sys: System, e: Event, i: nat, k: Key): Content
    requires Sized(sys) && e.proxy < |sys.proxies| && i < |sys.proxies|
  {
    if e.proxy == i then BytesAfter(sys.server, sys.proxies[i], sys.budgets[i], e.call, k)
    else FileOf(sys.proxies[i].store.disk, k)
  }

  lemma StepKeepsSnapshot(sys: System, e: Event, i: nat, fd: nat, k: Key)
    requires SystemSound(sys) && e.proxy < |sys.proxies| && i < |sys.proxies|
    requires ReadsKey(sys.proxies[i], fd, k) && ReadsKey(Step(sys, e).proxies[i], fd, k)
    requires k.Shared? && k in sys.proxies[i].store.disk
    ensures var st' := Step(sys, e).proxies[i].store;
      k in st'.disk && st'.disk[k] == BytesAfterEvent(sys, e, i, k)
  {
    hide Invoke;
    hide Sound;
    hide Balanced;
    hide Unbilled;
    hide BytesAfter;
    if e.proxy == i {
      StepSound(sys, e);
      InvokeMoves(sys.server, sys.proxies[i], sys.budgets[i], e.call);
      OpenPins(sys.proxies[i], fd);
      OpenPins(Step(sys, e).proxies[i], fd);
    }
  }

  function FileAt(sys: System, events: seq<Event>, i: nat, k: Key, n: nat): Content
    requires Sized(sys) && Addressed(sys, events) && i < |sys.proxies| && n <= |events|
  {
    FileOf(Run(sys, events[..n]).proxies[i].store.disk, k)
  }

  /** From step m on the descriptor fd of proxy i has the shared file k open. */
  ghost predicate ReadsFrom(sys: System, events: seq<Event>, i: nat, fd: nat, k: Key, m: nat)
    requires Sized(sys) && Addressed(sys, events) && i < |sys.proxies| && m <= |events|
  {
    && k.Shared? && k in Run(sys, events[..m]).proxies[i].store.disk
    && forall l :: m <= l <= |events| ==> ReadsKey(Run(sys, events[..l]).proxies[i], fd, k)
  }

  /** Event n leaves the file held at proxy i as it is. */
  predicate LeavesBytes(sys: System, events: seq<Event>, i: nat, k: Key, n: nat)
    requires Sized(sys) && Addressed(sys, events) && i < |sys.proxies| && n < |events|
  {
    BytesAfterEvent(Run(sys, events[..n]), events[n], i, k) == FileAt(sys, events, i, k, n)
  }

  /** While a read descriptor stays open on a shared file, the file stays on disk,
      and holds just what each event leaves in it. */
  lemma {:induction false} SnapshotsFollow(sys: System, events: seq<Event>, i: nat, fd: nat, k: Key, m: nat, n: nat)
    requires Initial(sys) && Addressed(sys, events) && i < |sys.proxies| && m <= n <= |events|
    requires ReadsFrom(sys, events, i, fd, k, m)
    ensures k in Run(sys, events[..n]).proxies[i].store.disk
    ensures n > m ==> (FileAt(sys, events, i, k, n) == BytesAfterEvent(Run(sys, events[..n - 1]), events[n - 1], i, k))
    decreases n
  {
    hide Step;
    hide SystemSound;
    hide Sound;
    hide BytesAfterEvent;
    hide Run;
    if n > m {
      var before, e := events[..n - 1], events[n - 1];
      SnapshotsFollow(sys, events, i, fd, k, m, n - 1);
      RunsAreSound(sys, before);
      assert events[..n] == before + [e];
      StepIsLast(sys, before, e);
      assert ReadsKey(Run(sys, events[..n]).proxies[i], fd, k) && ReadsKey(Run(sys, before).proxies[i], fd, k);
      StepKeepsSnapshot(Run(sys, before), e, i, fd, k);
    }
  }

  /** Snapshots, over every run: the bytes an open read descriptor sees do not
      change from step m on if and only if each event leaves them as they are;
      CloseChangesSnapshotIff says which ones do not. */
  lemma SnapshotsAreStable(sys: System, events: seq<Event>, i: nat, fd: nat, k: Key, m: nat)
    requires Initial(sys) && Addressed(sys, events) && i < |sys.proxies| && m <= |events|
    requires ReadsFrom(sys, events, i, fd, k, m)
    ensures forall n :: m <= n <= |events| ==> k in Run(sys, events[..n]).proxies[i].store.disk
    ensures (forall n :: m <= n <= |events| ==> FileAt(sys, events, i, k, n) == FileAt(sys, events, i, k, m))
      <==> (forall n :: m <= n < |events| ==> LeavesBytes(sys, events, i, k, n))
  {
    hide Run;
    hide FileAt;
    hide LeavesBytes;
    hide ReadsFrom;
    forall n | m <= n <= |events| ensures k in Run(sys, events[..n]).proxies[i].store.disk {
      SnapshotsFollow(sys, events, i, fd, k, m, n);
    }
    forall n | m <= n < |events|
      ensures LeavesBytes(sys, events, i, k, n) <==> FileAt(sys, events, i, k, n + 1) == FileAt(sys, events, i, k, n)
    {
      FileNext(sys, events, i, fd, k, m, n);
    }
    if forall n :: m <= n < |events| ==> LeavesBytes(sys, events, i, k, n) {
      forall n | m <= n <= |events| ensures FileAt(sys, events, i, k, n) == FileAt(sys, events, i, k, m) {
        SameFrom(sys, events, i, k, m, n);
      }
    } else {
      var n :| m <= n < |events| && !LeavesBytes(sys, events, i, k, n);
      assert FileAt(sys, events, i, k, n + 1) != FileAt(sys, events, i, k, n);
    }
  }

  lemma FileNext(sys: System, events: seq<Event>, i: nat, fd: nat, k: Key, m: nat, n: nat)
    requires Initial(sys) && Addressed(sys, events) && i < |sys.proxies| && m <= n < |events|
    requires ReadsFrom(sys, events, i, fd, k, m)
    ensures LeavesBytes(sys, events, i, k, n) <==> FileAt(sys, events, i, k, n + 1) == FileAt(sys, events, i, k, n)
  {
    hide Run;
    hide FileAt;
    hide ReadsFrom;
    hide BytesAfterEvent;
    SnapshotsFollow(sys, events, i, fd, k, m, n + 1);
    assert n + 1 - 1 == n;
  }

  lemma {:induction false} SameFrom(sys: System, events: seq<Event>, i: nat, k: Key, m: nat, n: nat)
    requires Sized(sys) && Addressed(sys, events) && i < |sys.proxies| && m <= n <= |events|
    requires forall l :: m <= l < |events| ==> FileAt(sys, events, i, k, l + 1) == FileAt(sys, events, i, k, l)
    ensures FileAt(sys, events, i, k, n) == FileAt(sys, events, i, k, m)
  {
    hide FileAt;
    if n > m {
      SameFrom(sys, events, i, k, m, n - 1);
      assert FileAt(sys, events, i, k, n - 1 + 1) == FileAt(sys, events, i, k, n - 1);
    }
  }

  /** What the close of a write descriptor lays over the next version's file: the
      private copy, zeros if the push fails, nothing if it ends before. */
  function LaidOver(sv: ServerState, px: ProxyState, max: int, fd: nat): Content
    requires fd in px.sessions && px.sessions[fd].Writer?
  {
    var p, v := px.sessions[fd].path, px.sessions[fd].ver;
    if Private(p, v, fd) !in px.store.disk || !Reserve(px.store, max, Shared(p, v + 1)).ok then []
    else
      var data := px.store.disk[Private(p, v, fd)];
      if Push(sv, p, data, 0).ok then data else Zeros(|ChunkAt(data, 0)|)
  }

  /** Only the close of a write descriptor of the version before can change a held
      file; the file survives it if and only if it begins with what is laid over
      it, which is the private copy if the close completes. */
  lemma CloseChangesSnapshotIff(sv: ServerState, px: ProxyState, max: int, call: Call, k: Key)
    ensures Written(px, call) != Some(k) ==> BytesAfter(sv, px, max, call, k) == FileOf(px.store.disk, k)
    ensures Written(px, call) == Some(k) ==>
      var file, data := FileOf(px.store.disk, k), LaidOver(sv, px, max, call.fd);
      && BytesAfter(sv, px, max, call, k) == Overlay(file, data)
      && (BytesAfter(sv, px, max, call, k) == file <==> data <= file)
      && (Invoke(sv, px, max, call).reply == Done ==> data == FileOf(px.store.disk, KeyOf(px.sessions[call.fd], call.fd)))
  {
    hide Reserve;
    if Written(px, call) == Some(k) {
      var file, data := FileOf(px.store.disk, k), LaidOver(sv, px, max, call.fd);
      var mine := KeyOf(px.sessions[call.fd], call.fd);
      if mine in px.store.disk && !Push(sv, mine.path, px.store.disk[mine], 0).ok {
        PushFailsOnBytes(sv, mine.path, px.store.disk[mine]);
      }
      hide FileServer.Push;
      OverlayLonger(file, data);
      assert Overlay(file, data)[..|data|] == data;
    }
  }

  /** So without such a close the snapshot stays, over every run. */
  lemma SnapshotsStayWithoutOverwrite(sys: System, events: seq<Event>, i: nat, fd: nat, k: Key, m: nat)
    requires Initial(sys) && Addressed(sys, events) && i < |sys.proxies| && m <= |events|
    requires ReadsFrom(sys, events, i, fd, k, m)
    requires forall n :: m <= n < |events| && events[n].proxy == i ==>
      Written(Run(sys, events[..n]).proxies[i], events[n].call) != Some(k)
    ensures forall n :: m <= n <= |events| ==> FileAt(sys, events, i, k, n) == FileAt(sys, events, i, k, m)
  {
    hide Run;
    hide Written;
    hide BytesAfter;
    hide ReadsFrom;
    forall n | m <= n < |events| ensures LeavesBytes(sys, events, i, k, n) {
      var mid := Run(sys, events[..n]);
      CloseChangesSnapshotIff(mid.server, mid.proxies[i], mid.budgets[i], events[n].call, k);
    }
    SnapshotsAreStable(sys, events, i, fd, k, m);
  }
}
