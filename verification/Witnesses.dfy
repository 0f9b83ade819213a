/** Runs that leave the orderly ones by one event, and what they break. */
module Witnesses {
  import opened Options
  import opened Bytes
  import opened CacheKeys
  import opened CacheSpec
  import opened FileServer
  import opened ProxySpec
  import opened Coherence
  import opened Departures

  const A := "a"
  const HOLDS_A := System(ServerState(map[A := [1]], map[]), [FRESH, FRESH], [100, 100])
  const EMPTY_A := System(ServerState(map[A := []], map[]), [FRESH, FRESH], [100, 100])
  const EMPTY := System(ServerState(map[], map[]), [FRESH, FRESH], [100, 100])

  lemma RunOfThree(sys: System, a: Event, b: Event, c: Event)
    requires Sized(sys) && a.proxy < |sys.proxies| && b.proxy < |sys.proxies| && c.proxy < |sys.proxies|
    ensures Addressed(sys, [a, b, c]) && Run(sys, [a, b, c]) == Step(Step(Step(sys, a), b), c)
  {
    hide Respond;
    hide Invoke;
    assert [a, b, c][..2] == [a, b] && [a, b][..1] == [a] && [a][..0] == [];
    assert Run(sys, [a]) == Step(sys, a);
    assert Run(sys, [a, b]) == Step(Step(sys, a), b);
  }

  lemma PutIntoEmpty(st: Store, max: int, k: Key)
    requires st.order == [] && st.clients == map[] && k.Shared?
    ensures Put(st, max, k) ==
      Swept(Store([k], map[k := 0], Int32(st.size + Length(st.disk, k)), st.disk), true)
  {
    SplitRecovers(k.path, k.ver);
    var charged := Charge(st, k);
    assert CheckStale(charged, k) == Swept(charged, true);
    assert Evict(charged, max) == charged;
  }

  lemma FetchLeavesServer(sv: ServerState, px: ProxyState, max: int, p: string, v: nat)
    ensures FetchThenWrite(sv, px, max, p, v).server == sv
  {
    hide CacheSpec.Put;
  }

  /** The first read open at a fresh proxy. */
  lemma FirstRead(sv: ServerState, max: int, p: string)
    requires p in sv.files && Ver(sv, p) > 0
    ensures var k := Shared(p, Ver(sv, p));
      Open(sv, FRESH, max, p, READ) == Outcome(Lookup(sv, p),
        ProxyState(Store([k], map[k := 1], Int32(|sv.files[p]|), map[k := sv.files[p]]), map[3 := Reader(k, 0)], 4),
        Opened(3))
  {
    hide CacheSpec.Put;
    var k := Shared(p, Ver(sv, p));
    assert Overlay([], sv.files[p]) == sv.files[p];
    PutIntoEmpty(FRESH.store.(disk := map[k := sv.files[p]]), max, k);
  }

  /** unlink keeps the version entry, so a file made again under the old name has
      the old version, and a proxy that cached the old bytes serves them. */
  lemma UnlinkServesOldBytes()
    ensures Initial(HOLDS_A)
    ensures var read := Event(0, OpenCall(A, READ));
      var end := Run(HOLDS_A, [read, Event(1, UnlinkCall(A)), Event(1, OpenCall(A, CREATE))]);
      var o := Respond(end, read);
      end.server.files == map[A := []] && o.reply == Opened(4) && Read(o.proxy, 4, 10).1 == Data([1])
  {
    hide Run;
    hide FetchThenWrite;
    hide CacheSpec.Put;
    hide Render;
    var read, unlink, create := Event(0, OpenCall(A, READ)), Event(1, UnlinkCall(A)), Event(1, OpenCall(A, CREATE));
    RunOfThree(HOLDS_A, read, unlink, create);
    FirstRead(HOLDS_A.server, 100, A);
    var k := Shared(A, 1);
    var px := ProxyState(Store([k], map[k := 1], 1, map[k := [1]]), map[3 := Reader(k, 0)], 4);
    var s1 := Step(HOLDS_A, read);
    assert s1 == System(ServerState(map[A := [1]], map[A := 1]), [px, FRESH], [100, 100]);
    var s2 := Step(s1, unlink);
    assert s2 == System(ServerState(map[], map[A := 1]), [px, FRESH], [100, 100]);
    var made := ServerState(map[A := []], map[A := 1]);
    FetchLeavesServer(made, FRESH, 100, A, 1);
    var s3 := Step(s2, create);
    assert s3.server == made && s3.proxies[0] == px;
    assert Hit(px.store.order, A, 1) == Some(k);
    InExcept(px.store.order, {k});
    assert Touch(px.store, k).disk == px.store.disk;
  }

  /** Unlinking a file that some proxy looked up and none holds is harmless, though
      its version entry stays. */
  lemma UnlinkOfUnheldFile()
    ensures var create, unlink := Event(0, OpenCall(A, CREATE_NEW)), Event(1, UnlinkCall(A));
      var end := Run(HOLDS_A, [create, unlink]);
      end.server == ServerState(map[], map[A := 1]) && end.proxies == [FRESH, FRESH] && SystemCoherent(end)
  {
    hide Run;
    var create, unlink := Event(0, OpenCall(A, CREATE_NEW)), Event(1, UnlinkCall(A));
    var mid := System(ServerState(map[A := [1]], map[A := 1]), [FRESH, FRESH], [100, 100]);
    var end := System(ServerState(map[], map[A := 1]), [FRESH, FRESH], [100, 100]);
    assert Step(HOLDS_A, create) == mid && Step(mid, unlink) == end;
    OneStep(HOLDS_A, create, mid);
    OneMore(HOLDS_A, [create], unlink, mid, end);
    assert [create] + [unlink] == [create, unlink];
    InitialCoherent(HOLDS_A);
    StepCoherent(HOLDS_A, create);
    UnlinkKeepsIff(mid, unlink);
  }

  // ---- an open under the name of a cached entry

  /** A path that the server does not have, spelled like the entry of another
      file: a read open succeeds and serves that file's bytes. */
  lemma AbsentPathServesAnotherFile()
    ensures Initial(HOLDS_A)
    ensures var end := Run(HOLDS_A, [Event(0, OpenCall(A, READ))]);
      var o := Respond(end, Event(0, OpenCall("a-1", READ)));
      "a-1" !in end.server.files && o.reply == Opened(4) && Read(o.proxy, 4, 10).1 == Data([1])
  {
    hide Run;
    hide Render;
    hide Spelled;
    hide CacheSpec.Put;
    var read := Event(0, OpenCall(A, READ));
    var k := Shared(A, 1);
    var px := ProxyState(Store([k], map[k := 1], 1, map[k := [1]]), map[3 := Reader(k, 0)], 4);
    var end := System(ServerState(map[A := [1]], map[A := 1]), [px, FRESH], [100, 100]);
    FirstRead(HOLDS_A.server, 100, A);
    assert Step(HOLDS_A, read) == end;
    OneStep(HOLDS_A, read, end);
    assert Coherent(end.server, px) && ServerOk(end.server) by {
      InitialCoherent(HOLDS_A);
      StepCoherent(HOLDS_A, read);
    }
    hide Open;
    hide Coherent;
    SpelledAlike();
    OpenSpelled(end.server, px, 100, "a-1", READ);
  }

  lemma SpelledAlike()
    ensures Spelled([Shared(A, 1)], "a-1") == Some(Shared(A, 1)) && "a-1" != A
  {
    assert ToString(1) == "1";
    assert Render(Shared(A, 1)) == "a-1";
  }

  lemma OneStep(sys: System, e: Event, end: System)
    requires Sized(sys) && e.proxy < |sys.proxies| && Step(sys, e) == end
    ensures Addressed(sys, [e]) && Run(sys, [e]) == end
  {
    hide Respond;
    assert [] + [e] == [e];
    StepIsLast(sys, [], e);
  }

  lemma OneMore(sys: System, events: seq<Event>, e: Event, mid: System, end: System)
    requires Sized(sys) && Addressed(sys, events) && e.proxy < |sys.proxies|
    requires Run(sys, events) == mid && Step(mid, e) == end
    ensures Addressed(sys, events + [e]) && Run(sys, events + [e]) == end
  {
    hide Step;
    StepIsLast(sys, events, e);
  }

  /** The sweep for path "a-1" takes an entry of path "a" for a stale version, or
      raises an exception over it. */
  lemma SweepMistakesAnotherPath()
    ensures VersionOf(Render(Shared("a-1", 1))).Some?
    ensures TestNames(Render(Shared("a-1", 1)), Render(Shared(A, 1234))) == Stale
    ensures TestNames(Render(Shared("a-1", 1)), Render(Shared(A, 12))) == Malformed
  {
    Digits();
    assert Render(Shared(A, 12)) == "a-12" && Render(Shared(A, 1234)) == "a-1234";
    hide Render;
    hide TestNames;
    hide VersionOf;
    hide ToString;
    ShorterPathTest("a-1", 1, A, 12);
    ShorterPathTest("a-1", 1, A, 1234);
    assert "1234"[2..] == "34" && "12"[2..] == "";
    hide TailTest;
    TailOfDigits("34", 1);
    TailOfDigits("", 1);
  }

  lemma Digits()
    ensures ToString(12) == "12" && ToString(1234) == "1234" && Value("34") == 34
  {
    assert 12 / 10 == 1 && 12 % 10 == 2 && 123 / 10 == 12 && 123 % 10 == 3 && 1234 / 10 == 123 && 1234 % 10 == 4;
    assert ToString(1) == "1";
    assert ToString(12) == "12";
    assert ToString(123) == "123";
    assert "34"[..1] == "3" && "3"[..0] == "";
    assert Value("") == 0;
    assert Value("3") == 3;
  }

  // ---- write sessions at a fresh proxy

  /** A fresh proxy that opened p for writing, with `data` in its private copy. */
  function Writing(p: string, v: nat, bytes: Content, data: Content, pos: nat): ProxyState {
    var s, m := Shared(p, v), Private(p, v, 3);
    ProxyState(Store([s, m], map[s := 0, m := 1], Int32(2 * |bytes|), map[s := bytes, m := data]), map[3 := Writer(p, v, pos)], 4)
  }

  lemma PutPrivate(st: Store, max: int, k: Key)
    requires k.Private? && k !in st.order && k !in st.clients && Int32(st.size + Length(st.disk, k)) <= max
    ensures Put(st, max, k) == Swept(Store(st.order + [k], st.clients[k := 0], Int32(st.size + Length(st.disk, k)), st.disk), true)
  {
    ExceptNone(st.order, {k});
  }

  lemma FetchThenWriteFresh(sv: ServerState, max: int, p: string, v: nat)
    requires 2 * |FileBytes(sv, p)| <= max && 2 * |FileBytes(sv, p)| < 0x8000_0000
    ensures var bytes := FileBytes(sv, p);
      FetchThenWrite(sv, FRESH, max, p, v) == Outcome(sv, Writing(p, v, bytes, bytes, 0), Opened(3))
  {
    hide CacheSpec.Put;
    hide Overlay;
    hide FileBytes;
    var bytes, s, m := FileBytes(sv, p), Shared(p, v), Private(p, v, 3);
    OverlayLonger([], bytes);
    var st0 := FRESH.store.(disk := map[s := bytes]);
    assert FRESH.store.disk[s := bytes] == map[s := bytes];
    PutIntoEmpty(st0, max, s);
    var st1 := Store([s], map[s := 0], |bytes|, map[s := bytes]);
    var st2 := st1.(disk := st1.disk[m := bytes]);
    PutPrivate(st2, max, m);
    assert [s] + [m] == [s, m];
  }

  lemma TwoEntries(a: Key, b: Key, disk: map<Key, Content>)
    requires a != b
    ensures Except([a, b], {a}) == [b]
    ensures Total([b], disk) == Length(disk, b) && Total([a, b], disk) == Length(disk, a) + Length(disk, b)
  {
    var none: seq<Key> := [];
    assert [a, b][1..] == [b] && [b][1..] == none;
    assert Except(none, {a}) == none && Total(none, disk) == 0;
    assert Except([b], {a}) == [b] + Except(none, {a});
    assert Total([b], disk) == Length(disk, b) + Total(none, disk);
    assert Total([a, b], disk) == Length(disk, a) + Total([b], disk);
  }

  // The sweep for the next version drops the copy that was fetched.
  lemma SweepAfterWriting(p: string, v: nat, bytes: Content, data: Content)
    requires 2 * |bytes| < 0x8000_0000
    ensures var s, m, n := Shared(p, v), Private(p, v, 3), Shared(p, v + 1);
      CheckStale(Store([s, m], map[s := 0, m := 1], 2 * |bytes|, map[s := bytes, m := data, n := []]), n) ==
        Swept(Store([m], map[s := 0, m := 1], |bytes|, map[m := data, n := []]), true)
  {
    hide CheckStale;
    hide Except;
    hide Total;
    var s, m, n := Shared(p, v), Private(p, v, 3), Shared(p, v + 1);
    var made := Store([s, m], map[s := 0, m := 1], 2 * |bytes|, map[s := bytes, m := data, n := []]);
    StaleRemovalIsExact(made, {p}, p, v + 1);
    assert OtherVersions(made, p, v + 1) == {s};
    TwoEntries(s, m, made.disk);
    assert made.disk - {s} == map[m := data, n := []];
  }

  lemma PutNext(p: string, v: nat, bytes: Content, data: Content, max: int)
    requires |bytes| <= max && |bytes| < 0x8000_0000
    ensures var s, m, n := Shared(p, v), Private(p, v, 3), Shared(p, v + 1);
      Put(Store([m], map[s := 0, m := 1], |bytes|, map[m := data, n := []]), max, n) ==
        Swept(Store([m, n], map[s := 0, m := 1, n := 0], |bytes|, map[m := data, n := []]), true)
  {
    hide CheckStale;
    hide Total;
    var s, m, n := Shared(p, v), Private(p, v, 3), Shared(p, v + 1);
    var charged := Store([m], map[s := 0, m := 1, n := 0], |bytes|, map[m := data, n := []]);
    assert Charge(Store([m], map[s := 0, m := 1], |bytes|, map[m := data, n := []]), n) == charged;
    StaleRemovalIsExact(charged, {p}, p, v + 1);
    assert OtherVersions(charged, p, v + 1) == {};
    RemoveNone(charged);
    assert Evict(charged, max) == charged;
    ExceptNone([m], {n});
    assert [m] + [n] == [m, n];
  }

  /** The entry of the next version, reserved by the close of such a session: the
      copy that was fetched is stale and goes. */
  lemma ReserveAfterWriting(p: string, v: nat, bytes: Content, data: Content, pos: nat, max: int)
    requires 2 * |bytes| <= max && 2 * |bytes| < 0x8000_0000
    ensures var s, m, n := Shared(p, v), Private(p, v, 3), Shared(p, v + 1);
      Reserve(Writing(p, v, bytes, data, pos).store, max, n) ==
        Swept(Store([m, n], map[s := 0, m := 1, n := 0], |bytes|, map[m := data, n := []]), true)
  {
    hide CheckStale;
    hide Put;
    var s, m, n := Shared(p, v), Private(p, v, 3), Shared(p, v + 1);
    assert map[s := bytes, m := data][n := []] == map[s := bytes, m := data, n := []];
    SweepAfterWriting(p, v, bytes, data);
    PutNext(p, v, bytes, data, max);
  }

  /** Closing such a session on a file with a version entry: only the new version
      is left at the proxy. */
  lemma CloseAfterWriting(sv: ServerState, p: string, v: nat, bytes: Content, data: Content, pos: nat, max: int)
    requires 2 * |bytes| <= max && 2 * |bytes| < 0x8000_0000 && |bytes| + |data| < 0x8000_0000 && p in sv.versions
    ensures var s, m, n := Shared(p, v), Private(p, v, 3), Shared(p, v + 1);
      CloseWriter(sv, Writing(p, v, bytes, data, pos), max, 3, p, v) ==
        Outcome(Push(sv, p, data, 0).server,
          ProxyState(Store([n], map[s := 0, m := 0, n := 0], |bytes|, map[n := data]), map[], 4), Done)
  {
    hide Reserve;
    hide Deliver;
    ReserveAfterWriting(p, v, bytes, data, pos, max);
    DeliverAfterWriting(sv, p, v, bytes, data, pos);
  }

  lemma DeliverAfterWriting(sv: ServerState, p: string, v: nat, bytes: Content, data: Content, pos: nat)
    requires |bytes| + |data| < 0x8000_0000 && p in sv.versions
    ensures var s, m, n := Shared(p, v), Private(p, v, 3), Shared(p, v + 1);
      var st := Store([m, n], map[s := 0, m := 1, n := 0], |bytes|, map[m := data, n := []]);
      Deliver(sv, ProxyState(st, map[3 := Writer(p, v, pos)], 4), 3, p, v, data) ==
        Outcome(Push(sv, p, data, 0).server,
          ProxyState(Store([n], map[s := 0, m := 0, n := 0], |bytes|, map[n := data]), map[], 4), Done)
  {
    hide FileServer.Push;
    hide RemoveWriter;
    hide Overlay;
    var m, n := Private(p, v, 3), Shared(p, v + 1);
    PushWorks(sv, p, data);
    OverlayLonger([], data);
    DropMine(p, v, bytes, data);
    assert map[m := data, n := []][n := data] == map[m := data, n := data];
    assert map[3 := Writer(p, v, pos)] - {3} == map[];
  }

  lemma DropMine(p: string, v: nat, bytes: Content, data: Content)
    requires |bytes| + |data| < 0x8000_0000
    ensures var s, m, n := Shared(p, v), Private(p, v, 3), Shared(p, v + 1);
      RemoveWriter(Store([m, n], map[s := 0, m := 1, n := 0], |bytes| + |data|, map[m := data, n := data]), m) ==
        Store([n], map[s := 0, m := 0, n := 0], |bytes|, map[n := data])
  {
    var s, m, n := Shared(p, v), Private(p, v, 3), Shared(p, v + 1);
    TwoEntries(m, n, map[m := data, n := data]);
    assert map[m := data, n := data] - {m} == map[n := data];
    assert map[s := 0, m := 1, n := 0][m := 0] == map[s := 0, m := 0, n := 0];
  }

  lemma PushWorks(sv: ServerState, p: string, data: Content)
    requires p in sv.versions
    ensures Push(sv, p, data, 0).ok && (data == [] ==> Push(sv, p, data, 0).server == sv)
  {
    if data != [] {
      WriteBack(sv, p, data);
    }
  }

  lemma WriteAtOnce(p: string, v: nat, data: Content)
    requires data != []
    ensures Write(Writing(p, v, [], [], 0), 3, data) == (Writing(p, v, [], data, |data|), Count(|data|))
  {
    var s, m := Shared(p, v), Private(p, v, 3);
    assert WriteAt([], 0, data) == data;
    assert map[s := [], m := []][m := data] == map[s := [], m := data];
    assert map[3 := Writer(p, v, 0)][3 := Writer(p, v, |data|)] == map[3 := Writer(p, v, |data|)];
  }

  lemma OpenToWrite(sv: ServerState, max: int, p: string)
    requires p in sv.files && Ver(sv, p) > 0
    requires 2 * |sv.files[p]| <= max && 2 * |sv.files[p]| < 0x8000_0000
    ensures var bytes := sv.files[p];
      Open(sv, FRESH, max, p, WRITE) == Outcome(Lookup(sv, p), Writing(p, Ver(sv, p), bytes, bytes, 0), Opened(3))
  {
    hide FetchThenWrite;
    FetchThenWriteFresh(Lookup(sv, p), max, p, Ver(sv, p));
  }

  lemma OpenToCreate(sv: ServerState, max: int, p: string)
    requires p !in sv.files && max >= 0
    ensures Open(sv, FRESH, max, p, CREATE) == Outcome(Create(sv, p), Writing(p, 1, [], [], 0), Opened(3))
  {
    hide FetchThenWrite;
    FetchThenWriteFresh(Create(sv, p), max, p, 1);
  }

  /** A proxy left with one entry serves it to a reader of that version. */
  lemma ReadOfCached(sv: ServerState, px: ProxyState, max: int, p: string, bytes: Content)
    requires p in sv.files && Ver(sv, p) > 0
    requires var n := Shared(p, Ver(sv, p)); n in px.store.order && n in px.store.disk && px.store.disk[n] == bytes
    requires |bytes| <= 10
    ensures var o := Open(sv, px, max, p, READ);
      o.server == Lookup(sv, p) && o.reply == Opened(px.nextFd) && Read(o.proxy, px.nextFd, 10).1 == Data(bytes)
  {
    hide Except;
    assert Slice(bytes, 0, 10) == bytes;
  }

  // ---- closing an empty copy

  /** The state of a proxy after the close of its only session on A. */
  function Closed(v: nat, data: Content): ProxyState {
    var s, m, n := Shared(A, v), Private(A, v, 3), Shared(A, v + 1);
    ProxyState(Store([n], map[s := 0, m := 0, n := 0], 0, map[n := data]), map[], 4)
  }

  const WRITE_0 := Event(0, OpenCall(A, WRITE))
  const WRITE_1 := Event(1, OpenCall(A, WRITE))
  const CLOSE_0 := Event(0, CloseCall(3))
  const CLOSE_1 := Event(1, CloseCall(3))
  const READ_0 := Event(0, OpenCall(A, READ))

  lemma TwoWriters()
    ensures Run(EMPTY_A, [WRITE_0, WRITE_1, Event(1, WriteCall(3, [1]))]) ==
      System(ServerState(map[A := []], map[A := 1]), [Writing(A, 1, [], [], 0), Writing(A, 1, [], [1], 1)], [100, 100])
  {
    hide Open;
    hide Coherence.Run;
    hide ProxySpec.Write;
    hide Writing;
    var w0 := Writing(A, 1, [], [], 0);
    var known := ServerState(map[A := []], map[A := 1]);
    OpenToWrite(EMPTY_A.server, 100, A);
    OpenToWrite(known, 100, A);
    WriteAtOnce(A, 1, [1]);
    var s1 := System(known, [w0, FRESH], [100, 100]);
    assert Step(EMPTY_A, WRITE_0) == s1;
    OneStep(EMPTY_A, WRITE_0, s1);
    var s2 := System(known, [w0, w0], [100, 100]);
    OneMore(EMPTY_A, [WRITE_0], WRITE_1, s1, s2);
    assert [WRITE_0] + [WRITE_1] == [WRITE_0, WRITE_1];
    var e := Event(1, WriteCall(3, [1]));
    OneMore(EMPTY_A, [WRITE_0, WRITE_1], e, s2, System(known, [w0, Writing(A, 1, [], [1], 1)], [100, 100]));
    assert [WRITE_0, WRITE_1] + [e] == [WRITE_0, WRITE_1, e];
  }

  /** Two proxies open an empty file for writing; one writes and closes, the other
      closes its empty copy. Both have made version 2, and the second proxy now
      serves its own, which is empty. */
  lemma EmptyCloseServesNothing()
    ensures Initial(EMPTY_A)
    ensures var end := Run(EMPTY_A, [WRITE_0, WRITE_1, Event(1, WriteCall(3, [1])), CLOSE_1, CLOSE_0]);
      var o := Respond(end, READ_0);
      && end.server == ServerState(map[A := [1]], map[A := 2])
      && o.reply == Opened(4) && Read(o.proxy, 4, 10).1 == Data([]) && !SystemCoherent(end)
  {
    hide Coherence.Run;
    hide CloseWriter;
    hide FileServer.Push;
    hide Open;
    hide Read;
    var start := [WRITE_0, WRITE_1, Event(1, WriteCall(3, [1]))];
    var w0, w1 := Writing(A, 1, [], [], 0), Writing(A, 1, [], [1], 1);
    var known, last := ServerState(map[A := []], map[A := 1]), ServerState(map[A := [1]], map[A := 2]);
    TwoWriters();
    WriteBack(known, A, [1]);
    assert Push(known, A, [1], 0) == Updated(last, true);
    CloseAfterWriting(known, A, 1, [], [1], 1, 100);
    var s3, s4 := System(known, [w0, w1], [100, 100]), System(last, [w0, Closed(1, [1])], [100, 100]);
    assert Step(s3, CLOSE_1) == s4;
    OneMore(EMPTY_A, start, CLOSE_1, s3, s4);
    CloseAfterWriting(last, A, 1, [], [], 0, 100);
    PushWorks(last, A, []);
    var s5 := System(last, [Closed(1, []), Closed(1, [1])], [100, 100]);
    assert Step(s4, CLOSE_0) == s5;
    OneMore(EMPTY_A, start + [CLOSE_1], CLOSE_0, s4, s5);
    assert start + [CLOSE_1] + [CLOSE_0] == [WRITE_0, WRITE_1, Event(1, WriteCall(3, [1])), CLOSE_1, CLOSE_0];
    ReadOfCached(last, Closed(1, []), 100, A, []);
    assert !Fits(last, s5.proxies[0].store, A, 2);
  }

  // ---- closing without a version entry

  const CREATE_0 := Event(0, OpenCall(A, CREATE))

  /** The proxy after a close that failed to push one byte. */
  function Failed(): ProxyState {
    var s, m, n := Shared(A, 1), Private(A, 1, 3), Shared(A, 2);
    ProxyState(Store([m, n], map[s := 0, m := 1, n := 0], 0, map[m := [1], n := [0]]), map[3 := Writer(A, 1, 1)], 4)
  }

  lemma FailedHasZeros()
    ensures var px, n := Failed(), Shared(A, 2);
      px.nextFd == 4 && n in px.store.order && n in px.store.disk && px.store.disk[n] == [0]
  {
  }

  lemma CloseFails(sv: ServerState)
    requires A in sv.files && sv.files[A] == [] && A !in sv.versions
    ensures CloseWriter(sv, Writing(A, 1, [], [1], 1), 100, 3, A, 1) ==
      Outcome(ServerState(sv.files[A := [1]], sv.versions), Failed(), Thrown)
  {
    hide Reserve;
    hide FileServer.Push;
    ReserveAfterWriting(A, 1, [], [1], 1, 100);
    WriteBackNeedsAnEntry(sv, A, [1]);
    assert ChunkAt([1], 0) == [1] && Overlay([], [1]) == [1];
    assert WriteAt([], 0, Zeros(1)) == [0];
    assert map[Private(A, 1, 3) := [1], Shared(A, 2) := []][Shared(A, 2) := [0]] ==
      map[Private(A, 1, 3) := [1], Shared(A, 2) := [0]];
  }

  lemma CreatedAndFailed()
    ensures Respond(Run(EMPTY, [CREATE_0, Event(0, WriteCall(3, [1]))]), CLOSE_0).reply == Thrown
    ensures Run(EMPTY, [CREATE_0, Event(0, WriteCall(3, [1])), CLOSE_0]) ==
      System(ServerState(map[A := [1]], map[]), [Failed(), FRESH], [100, 100])
  {
    hide Open;
    hide Coherence.Run;
    hide ProxySpec.Write;
    hide CloseWriter;
    hide Failed;
    var write := Event(0, WriteCall(3, [1]));
    var made := ServerState(map[A := []], map[]);
    var w0, w1 := Writing(A, 1, [], [], 0), Writing(A, 1, [], [1], 1);
    OpenToCreate(EMPTY.server, 100, A);
    assert Create(EMPTY.server, A) == made;
    WriteAtOnce(A, 1, [1]);
    CloseFails(made);
    var s1 := System(made, [w0, FRESH], [100, 100]);
    assert Step(EMPTY, CREATE_0) == s1;
    OneStep(EMPTY, CREATE_0, s1);
    var s2 := System(made, [w1, FRESH], [100, 100]);
    assert Step(s1, write) == s2;
    OneMore(EMPTY, [CREATE_0], write, s1, s2);
    assert [CREATE_0] + [write] == [CREATE_0, write];
    var s3 := System(ServerState(map[A := [1]], map[]), [Failed(), FRESH], [100, 100]);
    assert Step(s2, CLOSE_0) == s3;
    OneMore(EMPTY, [CREATE_0, write], CLOSE_0, s2, s3);
    assert [CREATE_0, write] + [CLOSE_0] == [CREATE_0, write, CLOSE_0];
  }

  /** A file made, written and closed before anyone looked it up: the close ends
      in an exception and leaves zeros cached as version 2. When another proxy
      then makes version 2, the first serves its zeros for it. */
  lemma CloseWithoutEntryServesZeros()
    ensures Initial(EMPTY)
    ensures var front := [CREATE_0, Event(0, WriteCall(3, [1]))];
      Respond(Run(EMPTY, front), CLOSE_0).reply == Thrown
    ensures var end := Run(EMPTY, [CREATE_0, Event(0, WriteCall(3, [1])), CLOSE_0, WRITE_1, CLOSE_1]);
      var o := Respond(end, READ_0);
      && end.server == ServerState(map[A := [1]], map[A := 2])
      && o.reply == Opened(4) && Read(o.proxy, 4, 10).1 == Data([0]) && !SystemCoherent(end)
  {
    hide Coherence.Run;
    hide CloseWriter;
    hide FileServer.Push;
    hide Open;
    hide Read;
    hide Failed;
    var start := [CREATE_0, Event(0, WriteCall(3, [1])), CLOSE_0];
    CreatedAndFailed();
    var torn, known, last := ServerState(map[A := [1]], map[]), ServerState(map[A := [1]], map[A := 1]),
      ServerState(map[A := [1]], map[A := 2]);
    var s3, w := System(torn, [Failed(), FRESH], [100, 100]), Writing(A, 1, [1], [1], 0);
    OpenToWrite(torn, 100, A);
    var s4 := System(known, [Failed(), w], [100, 100]);
    assert Step(s3, WRITE_1) == s4;
    OneMore(EMPTY, start, WRITE_1, s3, s4);
    WriteBack(known, A, [1]);
    assert Push(known, A, [1], 0) == Updated(last, true);
    CloseAfterWriting(known, A, 1, [1], [1], 0, 100);
    var n := Shared(A, 2);
    var after := ProxyState(Store([n], map[Shared(A, 1) := 0, Private(A, 1, 3) := 0, n := 0], 1, map[n := [1]]), map[], 4);
    var s5 := System(last, [Failed(), after], [100, 100]);
    assert Step(s4, CLOSE_1) == s5;
    OneMore(EMPTY, start + [WRITE_1], CLOSE_1, s4, s5);
    assert start + [WRITE_1] + [CLOSE_1] == [CREATE_0, Event(0, WriteCall(3, [1])), CLOSE_0, WRITE_1, CLOSE_1];
    FailedHasZeros();
    ReadOfCached(last, Failed(), 100, A, [0]);
    assert !Fits(last, s5.proxies[0].store, A, 2);
  }
}
