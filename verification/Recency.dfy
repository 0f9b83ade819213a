/** The order of the cache is the order of last use, over every sequence of
    cache operations; so eviction takes the entries unused for longest. */
module Recency {
  import opened Options
  import opened Bytes
  import opened CacheKeys
  import opened CacheSpec
  import opened FileServer
  import opened ProxySpec
  import opened Coherence

  /** The calls Proxy.java makes on the cache; Files stands for what happens to
      the files and the recorded size outside it. */
  datatype Op =
    | Get(k: Key)
    | Insert(k: Key)
    | Pin(k: Key)
    | ReleaseReader(k: Key)
    | ReleaseWriter(k: Key)
    | Sweep(k: Key)
    | Files(disk: map<Key, Content>, size: int32)

  function Apply(st: Store, max: int, op: Op): Store {
    match op
    case Get(k) => Touch(st, k)
    case Insert(k) => Put(st, max, k).store
    case Pin(k) => AddClient(st, k)
    case ReleaseReader(k) => RemoveReader(st, k).store
    case ReleaseWriter(k) => RemoveWriter(st, k)
    case Sweep(k) => CheckStale(st, k).store
    case Files(disk, size) => st.(disk := disk, size := size)
  }

  /** The entry an operation uses, if any: a get that finds it, a put that
      completes. */
  function Uses(st: Store, max: int, op: Op): seq<Key> {
    match op
    case Get(k) => if k in st.order then [k] else []
    case Insert(k) => if Put(st, max, k).ok then [k] else []
    case _ => []
  }

  function RunOps(st: Store, max: int, ops: seq<Op>): Store
    decreases |ops|
  {
    if ops == [] then st else RunOps(Apply(st, max, ops[0]), max, ops[1..])
  }

  /** All uses of a run, in time. */
  function History(st: Store, max: int, ops: seq<Op>): seq<Key>
    decreases |ops|
  {
    if ops == [] then [] else Uses(st, max, ops[0]) + History(Apply(st, max, ops[0]), max, ops[1..])
  }

  /** When an entry was last used; -1 if never. */
  function LastUse(h: seq<Key>, k: Key): int {
    if h == [] then -1 else if h[|h| - 1] == k then |h| - 1 else LastUse(h[..|h| - 1], k)
  }

  lemma {:induction false} LastUseIsLast(h: seq<Key>, k: Key)
    ensures -1 <= LastUse(h, k) < |h|
    ensures LastUse(h, k) >= 0 ==> h[LastUse(h, k)] == k
    ensures forall i :: LastUse(h, k) < i < |h| ==> h[i] != k
  {
    if h != [] {
      LastUseIsLast(h[..|h| - 1], k);
    }
  }

  /** Sorted by last use, and every entry was used. */
  ghost predicate ByRecency(order: seq<Key>, h: seq<Key>) {
    && (forall i :: 0 <= i < |order| ==> LastUse(h, order[i]) >= 0)
    && (forall i, j :: 0 <= i < j < |order| ==> LastUse(h, order[i]) < LastUse(h, order[j]))
  }

  lemma {:induction false} ExceptKeepsRecency(order: seq<Key>, gone: set<Key>, h: seq<Key>)
    requires ByRecency(order, h)
    ensures ByRecency(Except(order, gone), h)
  {
    hide LastUse;
    if order != [] {
      var rest := order[1..];
      ExceptKeepsRecency(rest, gone, h);
      InExcept(rest, gone);
      var kept := Except(rest, gone);
      forall j | 0 <= j < |kept| ensures LastUse(h, order[0]) < LastUse(h, kept[j]) {
        assert kept[j] in rest;
        var i :| 0 <= i < |rest| && rest[i] == kept[j];
        assert order[i + 1] == kept[j];
      }
    }
  }

  lemma UseIsLast(order: seq<Key>, h: seq<Key>, k: Key)
    requires ByRecency(order, h) && k !in order
    ensures ByRecency(order + [k], h + [k])
  {
    assert (h + [k])[..|h|] == h;
    assert LastUse(h + [k], k) == |h|;
    forall x | x in order ensures LastUse(h + [k], x) == LastUse(h, x) < |h| {
      LastUseIsLast(h, x);
    }
    hide LastUse;
  }

  lemma ApplyKeepsRecency(st: Store, max: int, op: Op, h: seq<Key>)
    requires ByRecency(st.order, h)
    ensures ByRecency(Apply(st, max, op).order, h + Uses(st, max, op))
  {
    hide Put;
    hide CheckStale;
    hide LastUse;
    hide Except;
    assert h + [] == h;
    match op {
      case Get(k) =>
        if k in st.order {
          ExceptKeepsRecency(st.order, {k}, h);
          InExcept(st.order, {k});
          UseIsLast(Except(st.order, {k}), h, k);
        }
      case Insert(k) =>
        RecencyNoDup(st.order, h);
        var gone := PutRemoves(st, max, k);
        var kept := RemoveAll(Charge(st, k), gone);
        ExceptKeepsRecency(st.order, gone, h);
        if Put(st, max, k).ok {
          ExceptKeepsRecency(kept.order, {k}, h);
          InExcept(kept.order, {k});
          UseIsLast(Except(kept.order, {k}), h, k);
        }
      case Pin(_) =>
      case ReleaseReader(k) =>
        RecencyNoDup(st.order, h);
        var gone := CheckStaleRemoves(Unpin(st, k), k);
        ExceptKeepsRecency(st.order, gone, h);
      case ReleaseWriter(k) =>
        ExceptKeepsRecency(st.order, {k}, h);
      case Sweep(k) =>
        RecencyNoDup(st.order, h);
        var gone := CheckStaleRemoves(st, k);
        ExceptKeepsRecency(st.order, gone, h);
      case Files(_, _) =>
    }
  }

  lemma RecencyNoDup(order: seq<Key>, h: seq<Key>)
    requires ByRecency(order, h)
    ensures NoDup(order)
  {
  }

  lemma {:induction false} RunKeepsRecency(st: Store, max: int, ops: seq<Op>, h: seq<Key>)
    requires ByRecency(st.order, h)
    ensures ByRecency(RunOps(st, max, ops).order, h + History(st, max, ops))
    decreases |ops|
  {
    hide Apply;
    hide Uses;
    hide ByRecency;
    if ops == [] {
      assert h + [] == h;
    } else {
      ApplyKeepsRecency(st, max, ops[0], h);
      RunKeepsRecency(Apply(st, max, ops[0]), max, ops[1..], h + Uses(st, max, ops[0]));
      assert h + Uses(st, max, ops[0]) + History(Apply(st, max, ops[0]), max, ops[1..]) == h + History(st, max, ops);
    }
  }

  // In an order by recency, eviction takes the older ones.
  lemma OlderGoFirst(st: Store, max: int, h: seq<Key>, x: Key, y: Key)
    requires ByRecency(st.order, h)
    requires x in st.order && x !in Evict(st, max).order
    requires y in Evict(st, max).order && Pins(st, y) == 0
    ensures 0 <= LastUse(h, x) < LastUse(h, y) && Pins(st, x) == 0
  {
    RecencyNoDup(st.order, h);
    Evicted(st, max, x);
    Evicted(st, max, y);
    hide Evict;
    hide LastUse;
    hide Cut;
    var m := Cut(st, max, 0);
    AcrossTheCut(st.order, m, h, x, y);
  }

  lemma AcrossTheCut(order: seq<Key>, m: nat, h: seq<Key>, x: Key, y: Key)
    requires ByRecency(order, h) && m <= |order|
    requires x in order[..m] && y in order && y !in order[..m]
    ensures 0 <= LastUse(h, x) < LastUse(h, y)
  {
    hide LastUse;
    var i :| 0 <= i < m && order[i] == x;
    assert order == order[..m] + order[m..];
    var j :| 0 <= j < |order[m..]| && order[m..][j] == y;
    assert order[m + j] == y;
  }

  lemma Evicted(st: Store, max: int, x: Key)
    requires NoDup(st.order)
    ensures x in Evict(st, max).order <==> x in st.order && x !in Unpinned(st, Cut(st, max, 0))
  {
    EvictIsLru(st, max);
    InExcept(st.order, Unpinned(st, Cut(st, max, 0)));
    hide Evict;
    hide Cut;
    hide Except;
    hide Total;
  }

  /** Least recently used, over every run of cache operations from an empty
      cache: whatever the next eviction removes was last used before every
      unpinned entry it leaves. */
  lemma EvictsTheLongestUnused(st: Store, max: int, ops: seq<Op>, x: Key, y: Key)
    requires st.order == []
    requires var now := RunOps(st, max, ops);
      && x in now.order && x !in Evict(now, max).order
      && y in Evict(now, max).order && Pins(now, y) == 0
    ensures var h := History(st, max, ops); 0 <= LastUse(h, x) < LastUse(h, y)
    ensures Pins(RunOps(st, max, ops), x) == 0
  {
    hide Evict;
    hide History;
    hide RunOps;
    hide LastUse;
    var now, h := RunOps(st, max, ops), History(st, max, ops);
    RunKeepsRecency(st, max, ops, []);
    assert [] + h == h;
    OlderGoFirst(now, max, h, x, y);
  }

  // ---- the caches of the proxies

  lemma {:induction false} RunOpsAppend(st: Store, max: int, a: seq<Op>, b: seq<Op>)
    ensures RunOps(st, max, a + b) == RunOps(RunOps(st, max, a), max, b)
    decreases |a|
  {
    hide Apply;
    if a == [] {
      assert a + b == b;
    } else {
      assert (a + b)[0] == a[0] && (a + b)[1..] == a[1..] + b;
      RunOpsAppend(Apply(st, max, a[0]), max, a[1..], b);
    }
  }

  lemma OneOp(st: Store, max: int, op: Op)
    ensures RunOps(st, max, [op]) == Apply(st, max, op)
  {
    hide Apply;
    var none: seq<Op> := [];
    assert [op][1..] == none;
  }

  lemma TwoOps(st: Store, max: int, a: Op, b: Op)
    ensures RunOps(st, max, [a, b]) == Apply(Apply(st, max, a), max, b)
  {
    hide Apply;
    assert [a, b][1..] == [b];
    OneOp(Apply(st, max, a), max, b);
  }

  lemma ThreeOps(st: Store, max: int, a: Op, b: Op, c: Op)
    ensures RunOps(st, max, [a, b, c]) == Apply(Apply(Apply(st, max, a), max, b), max, c)
  {
    hide Apply;
    assert [a, b, c][1..] == [b, c];
    TwoOps(Apply(st, max, a), max, b, c);
  }

  /** The cache operations of each call. */
  function FetchOps(st: Store, k: Key, bytes: Content): seq<Op> {
    [Files(st.disk[k := Overlay(FileOf(st.disk, k), bytes)], st.size), Insert(k)]
  }

  function GrantWriterOps(px: ProxyState, p: string, v: nat, base: Content): seq<Op> {
    var k := Private(p, v, px.nextFd);
    [Files(px.store.disk[k := Overlay(FileOf(px.store.disk, k), base)], px.store.size), Insert(k), Pin(k)]
  }

  function OpenOps(sv: ServerState, px: ProxyState, max: int, p: string, mode: OpenMode): seq<Op> {
    var ver, bytes := Ver(sv, p), FileBytes(sv, p);
    var hit := Hit(px.store.order, p, ver);
    if hit.Some? then
      var touched := px.(store := Touch(px.store, hit.value));
      match mode
      case CREATE_NEW => []
      case READ => [Get(hit.value), Pin(hit.value)]
      case _ => [Get(hit.value)] + GrantWriterOps(touched, p, ver, FileOf(px.store.disk, hit.value))
    else if (ver == 0 && (mode == READ || mode == WRITE))
        || (mode == CREATE_NEW && (ver != 0 || Shared(p, 1) in px.store.disk)) then []
    else
      var v := if ver == 0 then 1 else ver;
      var k := Shared(p, v);
      var r := Fetch(px.store, max, k, bytes);
      FetchOps(px.store, k, bytes) +
        if !r.ok then [] else if mode == READ then [Pin(k)]
        else GrantWriterOps(px.(store := r.store), p, v, Overlay(FileOf(px.store.disk, k), bytes))
  }

  function CloseReaderOps(px: ProxyState, k: Key): seq<Op> {
    [Get(k), ReleaseReader(k)] + if RemoveReader(Touch(px.store, k), k).ok then [Sweep(k)] else []
  }

  function ReserveOps(st: Store, k: Key): seq<Op> {
    var made := st.(disk := st.disk[k := FileOf(st.disk, k)]);
    [Files(made.disk, st.size), Sweep(k)] + if CheckStale(made, k).ok then [Insert(k)] else []
  }

  function CloseWriterOps(sv: ServerState, px: ProxyState, max: int, fd: nat, p: string, v: nat): seq<Op> {
    var mine, next := Private(p, v, fd), Shared(p, v + 1);
    var r := Reserve(px.store, max, next);
    if mine !in px.store.disk then []
    else
      var data, was := px.store.disk[mine], FileOf(r.store.disk, next);
      ReserveOps(px.store, next) +
        if !r.ok then []
        else if Push(sv, p, data, 0).ok then
          [Files(r.store.disk[next := Overlay(was, data)], Int32(r.store.size + |data| - |was|)), ReleaseWriter(mine)]
        else [Files(r.store.disk[next := WriteAt(was, 0, Zeros(|ChunkAt(data, 0)|))], r.store.size)]
  }

  function CallOps(sv: ServerState, px: ProxyState, max: int, call: Call): seq<Op> {
    match call
    case OpenCall(p, mode) => OpenOps(sv, px, max, p, mode)
    case CloseCall(fd) =>
      if fd !in px.sessions then []
      else (match px.sessions[fd]
        case Reader(k, _) => CloseReaderOps(px, k)
        case Writer(p, v, _) => CloseWriterOps(sv, px, max, fd, p, v))
    case WriteCall(fd, buf) =>
      var st := Write(px, fd, buf).0.store;
      [Files(st.disk, st.size)]
    case _ => []
  }

  // ---- they are what the calls do

  lemma FetchByOps(st: Store, max: int, k: Key, bytes: Content)
    ensures RunOps(st, max, FetchOps(st, k, bytes)) == Fetch(st, max, k, bytes).store
  {
    hide CacheSpec.Put;
    hide RunOps;
    var disk := st.disk[k := Overlay(FileOf(st.disk, k), bytes)];
    TwoOps(st, max, Files(disk, st.size), Insert(k));
  }

  lemma GrantWriterByOps(px: ProxyState, max: int, p: string, v: nat, base: Content)
    ensures RunOps(px.store, max, GrantWriterOps(px, p, v, base)) == GrantWriter(px, max, p, v, base).store
  {
    hide CacheSpec.Put;
    hide RunOps;
    var k := Private(p, v, px.nextFd);
    ThreeOps(px.store, max, Files(px.store.disk[k := Overlay(FileOf(px.store.disk, k), base)], px.store.size), Insert(k), Pin(k));
  }

  lemma OpenByOps(sv: ServerState, px: ProxyState, max: int, p: string, mode: OpenMode)
    ensures RunOps(px.store, max, OpenOps(sv, px, max, p, mode)) == Open(sv, px, max, p, mode).proxy.store
  {
    hide Fetch;
    hide FetchOps;
    hide GrantWriter;
    hide GrantWriterOps;
    hide Spelled;
    hide Touch;
    hide RunOps;
    var st, ver, bytes := px.store, Ver(sv, p), FileBytes(sv, p);
    var hit := Hit(st.order, p, ver);
    NoOps(st, max);
    if hit.Some? {
      var k := hit.value;
      var touched, base := px.(store := Touch(st, k)), FileOf(st.disk, k);
      TwoOps(st, max, Get(k), Pin(k));
      OneOp(st, max, Get(k));
      RunOpsAppend(st, max, [Get(k)], GrantWriterOps(touched, p, ver, base));
      GrantWriterByOps(touched, max, p, ver, base);
    } else {
      var v := if ver == 0 then 1 else ver;
      var k := Shared(p, v);
      SameBytes(sv, p);
      FetchByOps(st, max, k, bytes);
      var px1, base := px.(store := Fetch(st, max, k, bytes).store), Overlay(FileOf(st.disk, k), bytes);
      GrantWriterByOps(px1, max, p, v, base);
      RunOpsAppend(st, max, FetchOps(st, k, bytes), GrantWriterOps(px1, p, v, base));
      RunOpsAppend(st, max, FetchOps(st, k, bytes), [Pin(k)]);
      RunOpsAppend(st, max, FetchOps(st, k, bytes), []);
      NoOps(px1.store, max);
      OneOp(px1.store, max, Pin(k));
    }
  }

  lemma NoOps(st: Store, max: int)
    ensures RunOps(st, max, []) == st
  {
  }

  lemma SameBytes(sv: ServerState, p: string)
    ensures FileBytes(Lookup(sv, p), p) == FileBytes(sv, p) && FileBytes(Create(Lookup(sv, p), p), p) == FileBytes(sv, p)
  {
  }

  lemma CloseReaderByOps(px: ProxyState, max: int, fd: nat, k: Key)
    ensures RunOps(px.store, max, CloseReaderOps(px, k)) == CloseReader(px, fd, k).0.store
  {
    hide CheckStale;
    hide Touch;
    hide RunOps;
    var once := RemoveReader(Touch(px.store, k), k);
    TwoOps(px.store, max, Get(k), ReleaseReader(k));
    RunOpsAppend(px.store, max, [Get(k), ReleaseReader(k)], if once.ok then [Sweep(k)] else []);
    NoOps(once.store, max);
    OneOp(once.store, max, Sweep(k));
  }

  lemma ReserveByOps(st: Store, max: int, k: Key)
    ensures RunOps(st, max, ReserveOps(st, k)) == Reserve(st, max, k).store
  {
    hide CheckStale;
    hide CacheSpec.Put;
    hide RunOps;
    var made := st.(disk := st.disk[k := FileOf(st.disk, k)]);
    var once := CheckStale(made, k);
    TwoOps(st, max, Files(made.disk, st.size), Sweep(k));
    RunOpsAppend(st, max, [Files(made.disk, st.size), Sweep(k)], if once.ok then [Insert(k)] else []);
    NoOps(once.store, max);
    OneOp(once.store, max, Insert(k));
  }

  lemma CloseWriterByOps(sv: ServerState, px: ProxyState, max: int, fd: nat, p: string, v: nat)
    ensures RunOps(px.store, max, CloseWriterOps(sv, px, max, fd, p, v)) == CloseWriter(sv, px, max, fd, p, v).proxy.store
  {
    hide Reserve;
    hide ReserveOps;
    hide FileServer.Push;
    hide RemoveWriter;
    hide Overlay;
    hide WriteAt;
    hide RunOps;
    var st, mine, next := px.store, Private(p, v, fd), Shared(p, v + 1);
    NoOps(st, max);
    if mine in st.disk {
      var data, r := st.disk[mine], Reserve(st, max, next).store;
      var was := FileOf(r.disk, next);
      var f := r.(disk := r.disk[next := Overlay(was, data)], size := Int32(r.size + |data| - |was|));
      ReserveByOps(st, max, next);
      NoOps(r, max);
      RunOpsAppend(st, max, ReserveOps(st, next), []);
      RunOpsAppend(st, max, ReserveOps(st, next), [Files(f.disk, f.size), ReleaseWriter(mine)]);
      TwoOps(r, max, Files(f.disk, f.size), ReleaseWriter(mine));
      if !Push(sv, p, data, 0).ok {
        PushFailsOnBytes(sv, p, data);
        var zeros := r.disk[next := WriteAt(was, 0, Zeros(|ChunkAt(data, 0)|))];
        RunOpsAppend(st, max, ReserveOps(st, next), [Files(zeros, r.size)]);
        OneOp(r, max, Files(zeros, r.size));
      }
    }
  }

  lemma InvokeByOps(sv: ServerState, px: ProxyState, max: int, call: Call)
    ensures RunOps(px.store, max, CallOps(sv, px, max, call)) == Invoke(sv, px, max, call).proxy.store
  {
    hide Open;
    hide OpenOps;
    hide CloseReader;
    hide CloseReaderOps;
    hide CloseWriter;
    hide CloseWriterOps;
    hide WriteAt;
    hide RunOps;
    NoOps(px.store, max);
    match call {
      case OpenCall(p, mode) => OpenByOps(sv, px, max, p, mode);
      case CloseCall(fd) =>
        if fd in px.sessions {
          match px.sessions[fd]
          case Reader(k, _) => CloseReaderByOps(px, max, fd, k);
          case Writer(p, v, _) => CloseWriterByOps(sv, px, max, fd, p, v);
        }
      case WriteCall(fd, buf) =>
        var st := Write(px, fd, buf).0.store;
        OneOp(px.store, max, Files(st.disk, st.size));
      case ReadCall(_, _) =>
      case LseekCall(_, _, _) =>
      case UnlinkCall(_) =>
    }
  }

  /** The cache operations at proxy i over a run. */
  function OpsOver(sys: System, events: seq<Event>, i: nat): seq<Op>
    requires Sized(sys) && Addressed(sys, events) && i < |sys.proxies|
  {
    if events == [] then []
    else
      var front, last := events[..|events| - 1], events[|events| - 1];
      var mid := Run(sys, front);
      OpsOver(sys, front, i) +
        if last.proxy == i then CallOps(mid.server, mid.proxies[i], sys.budgets[i], last.call) else []
  }

  /** After any run of any number of proxies, the cache of each is what its cache
      operations make of the empty one. */
  lemma {:induction false} ProxiesRunOps(sys: System, events: seq<Event>, i: nat)
    requires Initial(sys) && Addressed(sys, events) && i < |sys.proxies|
    ensures Run(sys, events).proxies[i].store == RunOps(FRESH.store, sys.budgets[i], OpsOver(sys, events, i))
    ensures Run(sys, events).budgets == sys.budgets
  {
    hide Invoke;
    hide CallOps;
    hide RunOps;
    if events == [] {
      NoOps(FRESH.store, sys.budgets[i]);
    } else {
      var front, last := events[..|events| - 1], events[|events| - 1];
      ProxiesRunOps(sys, front, i);
      var mid := Run(sys, front);
      if last.proxy == i {
        InvokeByOps(mid.server, mid.proxies[i], mid.budgets[i], last.call);
        RunOpsAppend(FRESH.store, sys.budgets[i], OpsOver(sys, front, i),
          CallOps(mid.server, mid.proxies[i], sys.budgets[i], last.call));
      } else {
        assert OpsOver(sys, front, i) + [] == OpsOver(sys, front, i);
      }
    }
  }

  /** When the entries of a proxy were used, over a run. */
  function UsesOver(sys: System, events: seq<Event>, i: nat): seq<Key>
    requires Sized(sys) && Addressed(sys, events) && i < |sys.proxies|
  {
    History(FRESH.store, sys.budgets[i], OpsOver(sys, events, i))
  }

  /** So at every proxy, after every run, the cache is in the order of last use,
      and evicts the entries unused for longest. */
  lemma ProxiesEvictTheLongestUnused(sys: System, events: seq<Event>, i: nat, x: Key, y: Key)
    requires Initial(sys) && Addressed(sys, events) && i < |sys.proxies|
    requires var now := Run(sys, events).proxies[i].store; var left := Evict(now, sys.budgets[i]);
      x in now.order && x !in left.order && y in left.order && Pins(now, y) == 0
    ensures var now, h := Run(sys, events).proxies[i].store, UsesOver(sys, events, i);
      ByRecency(now.order, h) && 0 <= LastUse(h, x) < LastUse(h, y) && Pins(now, x) == 0
  {
    hide Run;
    hide RunOps;
    hide History;
    hide LastUse;
    hide Evict;
    hide OpsOver;
    ProxiesRunOps(sys, events, i);
    var max, ops := sys.budgets[i], OpsOver(sys, events, i);
    RunKeepsRecency(FRESH.store, max, ops, []);
    assert [] + History(FRESH.store, max, ops) == History(FRESH.store, max, ops);
    EvictsTheLongestUnused(FRESH.store, max, ops, x, y);
  }

  // ---- which calls use which entries

  /** The entry is the most recent. */
  predicate IsLast(order: seq<Key>, k: Key) {
    order != [] && order[|order| - 1] == k
  }

  lemma {:induction false} ExceptLast(order: seq<Key>, k: Key, gone: set<Key>)
    ensures Except(order + [k], gone) == Except(order, gone) + if k in gone then [] else [k]
  {
    if order == [] {
      assert [] + [k] == [k] && [k][1..] == [];
    } else {
      assert (order + [k])[0] == order[0] && (order + [k])[1..] == order[1..] + [k];
      ExceptLast(order[1..], k, gone);
    }
  }

  lemma LastStays(order: seq<Key>, k: Key, gone: set<Key>)
    requires IsLast(order, k) && k !in gone
    ensures IsLast(Except(order, gone), k)
  {
    assert order == order[..|order| - 1] + [k];
    ExceptLast(order[..|order| - 1], k, gone);
  }

  lemma PutIsLast(st: Store, max: int, k: Key)
    requires Put(st, max, k).ok
    ensures IsLast(Put(st, max, k).store.order, k)
  {
    hide CheckStale;
    hide Evict;
  }

  lemma SweepKeepsLast(st: Store, name: Key, k: Key)
    requires NoDup(st.order) && IsLast(st.order, k) && k in CheckStale(st, name).store.order
    ensures IsLast(CheckStale(st, name).store.order, k)
  {
    var gone := CheckStaleRemoves(st, name);
    InExcept(st.order, gone);
    LastStays(st.order, k, gone);
  }

  /** An open that succeeds makes its entry the most recent: the one it hits or
      fetches for a read descriptor, the private copy for a write descriptor; the
      shared entry that a write open hits comes right before it, if it is still
      there. */
  lemma OpenUses(sv: ServerState, px: ProxyState, max: int, p: string, mode: OpenMode)
    requires NoDup(px.store.order)
    ensures var o, hit := Open(sv, px, max, p, mode), Hit(px.store.order, p, Ver(sv, p));
      o.reply.Opened? ==>
        && o.reply.fd in o.proxy.sessions
        && var order := o.proxy.store.order;
        && IsLast(order, KeyOf(o.proxy.sessions[o.reply.fd], o.reply.fd))
        && (hit.Some? && mode != READ && hit.value in order && hit.value != order[|order| - 1] ==>
              |order| >= 2 && order[|order| - 2] == hit.value)
  {
    hide Put;
    hide Overlay;
    hide Spelled;
    var hit := Hit(px.store.order, p, Ver(sv, p));
    if hit.Some? {
      var touched := px.(store := Touch(px.store, hit.value));
      InExcept(px.store.order, {hit.value});
      ExceptNoDup(px.store.order, {hit.value});
      WriterIsLast(touched, max, p, Ver(sv, p), FileOf(px.store.disk, hit.value), hit.value);
    } else {
      var ver, bytes := Ver(sv, p), FileBytes(Create(Lookup(sv, p), p), p);
      SameBytes(sv, p);
      var v := if ver == 0 then 1 else ver;
      var st1 := px.store.(disk := px.store.disk[Shared(p, v) := Overlay(FileOf(px.store.disk, Shared(p, v)), bytes)]);
      var r := Put(st1, max, Shared(p, v));
      if r.ok {
        PutIsLast(st1, max, Shared(p, v));
        PutPrunes(st1, max, Shared(p, v));
        WriterIsLast(px.(store := r.store), max, p, v, Overlay(FileOf(px.store.disk, Shared(p, v)), bytes), Shared(p, v));
      }
    }
  }

  lemma WriterIsLast(px: ProxyState, max: int, p: string, v: nat, base: Content, k: Key)
    requires NoDup(px.store.order) && IsLast(px.store.order, k)
    ensures var px' := GrantWriter(px, max, p, v, base); var order := px'.store.order;
      && px'.sessions == px.sessions[px.nextFd := Writer(p, v, 0)]
      && IsLast(order, Private(p, v, px.nextFd))
      && (k in order && k != Private(p, v, px.nextFd) ==> |order| >= 2 && order[|order| - 2] == k)
  {
    hide Put;
    hide Overlay;
    hide Int32;
    hide CacheSpec.Length;
    var m := Private(p, v, px.nextFd);
    var st1 := px.store.(disk := px.store.disk[m := Overlay(FileOf(px.store.disk, m), base)]);
    PrivatePutOk(st1, max, m);
    PutIsLast(st1, max, m);
    if k != m {
      PutAfterLast(st1, max, m, k);
    }
  }

  // A private copy goes right behind the last entry, if that one stays.
  lemma PutAfterLast(st: Store, max: int, m: Key, k: Key)
    requires m.Private? && NoDup(st.order) && IsLast(st.order, k) && k != m
    ensures var order := Put(st, max, m).store.order; k in order ==> |order| >= 2 && order[|order| - 2] == k
  {
    PrivatePutOk(st, max, m);
    PutIsExact(st, max, m);
    hide Put;
    hide Int32;
    hide Total;
    hide Cut;
    hide StaleFor;
    var swept := AfterSweep(st, m);
    ExceptNone(st.order, {});
    var cut := Unpinned(swept, Cut(swept, max, 0));
    var kept := Except(st.order, cut);
    hide Except;
    hide Unpinned;
    InExcept(st.order, cut);
    InExcept(kept, {m});
    if k !in cut {
      LastStays(st.order, k, cut);
      LastStays(kept, k, {m});
    }
  }

  lemma PrivatePutOk(st: Store, max: int, k: Key)
    requires k.Private?
    ensures Put(st, max, k).ok && StaleFor(st, k) == {}
  {
  }

  /** The close of a read descriptor uses its entry: if it is still cached, it is
      the most recent. */
  lemma CloseReaderUses(px: ProxyState, fd: nat, k: Key)
    requires NoDup(px.store.order) && k in px.store.order
    ensures var order := CloseReader(px, fd, k).0.store.order; k in order ==> IsLast(order, k)
  {
    hide CheckStale;
    InExcept(px.store.order, {k});
    ExceptNoDup(px.store.order, {k});
    var st1 := Unpin(Touch(px.store, k), k);
    CheckStalePrunes(st1, k);
    var st2 := CheckStale(st1, k).store;
    CheckStalePrunes(st2, k);
    if k in st2.order {
      SweepKeepsLast(st1, k, k);
      if k in CheckStale(st2, k).store.order {
        SweepKeepsLast(st2, k, k);
      }
    }
  }

  /** A write close that completes leaves the version it makes the most recent. */
  lemma CloseWriterUses(sv: ServerState, px: ProxyState, max: int, fd: nat, p: string, v: nat)
    requires CloseWriter(sv, px, max, fd, p, v).reply == Done
    ensures IsLast(CloseWriter(sv, px, max, fd, p, v).proxy.store.order, Shared(p, v + 1))
  {
    hide FileServer.Push;
    hide Put;
    hide CheckStale;
    hide Overlay;
    var mine, next := Private(p, v, fd), Shared(p, v + 1);
    var made := px.store.(disk := px.store.disk[next := FileOf(px.store.disk, next)]);
    PutIsLast(CheckStale(made, next).store, max, next);
    LastStays(Reserve(px.store, max, next).store.order, next, {mine});
  }
}
