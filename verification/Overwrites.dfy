/** A run in which two write descriptors of one version close at one proxy while
    a reader has the next version open: the reader's bytes change, and the entry
    installed again is charged again. */
module Overwrites {
  import opened Options
  import opened Bytes
  import opened CacheKeys
  import opened CacheSpec
  import opened FileServer
  import opened ProxySpec
  import opened Coherence
  import opened Pins
  import opened Civil
  import opened Witnesses

  const S := Shared(A, 1)
  const N := Shared(A, 2)
  const M3 := Private(A, 1, 3)
  const M4 := Private(A, 1, 4)

  const WRITE_3 := Event(0, WriteCall(3, [1]))
  const WRITE_4 := Event(0, WriteCall(4, [2]))
  const CLOSE_4 := Event(0, CloseCall(4))

  const KNOWN := ServerState(map[A := []], map[A := 1])
  const ONCE := ServerState(map[A := [1]], map[A := 2])
  const TWICE := ServerState(map[A := [2]], map[A := 3])

  /** Both descriptors open, the first with `data` written. */
  function Both(data: Content): ProxyState {
    ProxyState(Store([M3, S, M4], map[S := 0, M3 := 1, M4 := 1], 0, map[S := [], M3 := data, M4 := []]),
      map[3 := Writer(A, 1, |data|), 4 := Writer(A, 1, 0)], 5)
  }

  /** The first has closed. */
  function OneLeft(): ProxyState {
    ProxyState(Store([M4, N], map[S := 0, M3 := 0, M4 := 1, N := 0], 0, map[M4 := [], N := [1]]),
      map[4 := Writer(A, 1, 0)], 5)
  }

  /** A reader has opened the next version, and `data` is in the second copy. */
  function Reading(data: Content): ProxyState {
    ProxyState(Store([M4, N], map[S := 0, M3 := 0, M4 := 1, N := 1], 0, map[M4 := data, N := [1]]),
      map[4 := Writer(A, 1, |data|), 5 := Reader(N, 0)], 6)
  }

  /** The second has closed too. */
  function Overwritten(): ProxyState {
    ProxyState(Store([N], map[S := 0, M3 := 0, M4 := 0, N := 1], 0, map[N := [2]]), map[5 := Reader(N, 0)], 6)
  }

  // ---- sweeps and puts of these stores

  lemma SweepNothing(st: Store, v: nat)
    requires NoDup(st.order) && (forall k :: k in st.order ==> k.path == A && (k.Private? || k.ver == v))
    ensures CheckStale(st, Shared(A, v)) == Swept(st, true)
  {
    hide CheckStale;
    StaleRemovalIsExact(st, {A}, A, v);
    assert OtherVersions(st, A, v) == {};
    RemoveNone(st);
  }

  lemma ThreeEntries(a: Key, b: Key, c: Key, disk: map<Key, Content>)
    requires a != b && b != c && a != c
    ensures Except([a, b, c], {b}) == [a, c] && Except([a, b, c], {a}) == [b, c]
    ensures Total([a, b, c], disk) == Length(disk, a) + Length(disk, b) + Length(disk, c)
  {
    assert [a, b, c][1..] == [b, c] && [b, c][1..] == [c];
    TwoEntries(b, c, disk);
    ExceptNone([c], {b});
    ExceptNone([b, c], {a});
  }

  lemma LastEntry(a: Key, b: Key)
    requires a != b
    ensures Except([a, b], {b}) == [a]
  {
    var none: seq<Key> := [];
    assert [a, b][1..] == [b] && [b][1..] == none;
    assert Except([b], {b}) == Except(none, {b});
  }

  // ---- the events

  lemma OpenAgain()
    ensures Open(KNOWN, Writing(A, 1, [], [], 0), 100, A, WRITE) == Outcome(KNOWN, Both([]), Opened(4))
  {
    hide CacheSpec.Put;
    var px := Writing(A, 1, [], [], 0);
    TwoEntries(S, M3, px.store.disk);
    assert [M3] + [S] == [M3, S];
    assert Touch(px.store, S) == Store([M3, S], map[S := 0, M3 := 1], 0, map[S := [], M3 := []]);
    assert Hit(px.store.order, A, 1) == Some(S) && FileOf(px.store.disk, S) == [];
    OverlayLonger([], []);
    hide Overlay;
    hide Touch;
    var st := Store([M3, S], map[S := 0, M3 := 1], 0, map[S := [], M3 := [], M4 := []]);
    assert map[S := [], M3 := []][M4 := []] == st.disk;
    PutPrivate(st, 100, M4);
    assert [M3, S] + [M4] == [M3, S, M4];
    assert map[3 := Writer(A, 1, 0)][4 := Writer(A, 1, 0)] == map[3 := Writer(A, 1, 0), 4 := Writer(A, 1, 0)];
    assert map[S := 0, M3 := 1][M4 := 0][M4 := 1] == map[S := 0, M3 := 1, M4 := 1];
  }

  lemma WriteFirst()
    ensures Write(Both([]), 3, [1]) == (Both([1]), Count(1))
  {
    assert WriteAt([], 0, [1]) == [1];
    assert map[S := [], M3 := [], M4 := []][M3 := [1]] == map[S := [], M3 := [1], M4 := []];
    assert Both([]).sessions[3 := Writer(A, 1, 1)] == Both([1]).sessions;
  }

  lemma ReserveFirst()
    ensures Reserve(Both([1]).store, 100, N) ==
      Swept(Store([M3, M4, N], map[S := 0, M3 := 1, M4 := 1, N := 0], 0, map[M3 := [1], M4 := [], N := []]), true)
  {
    hide CheckStale;
    hide Total;
    hide Except;
    var made := Store([M3, S, M4], map[S := 0, M3 := 1, M4 := 1], 0, map[S := [], M3 := [1], M4 := [], N := []]);
    assert Both([1]).store.disk[N := []] == made.disk;
    StaleRemovalIsExact(made, {A}, A, 2);
    assert OtherVersions(made, A, 2) == {S};
    var once := Store([M3, M4], map[S := 0, M3 := 1, M4 := 1], 0, map[M3 := [1], M4 := [], N := []]);
    ThreeEntries(M3, S, M4, made.disk);
    TwoEntries(M3, M4, made.disk);
    assert made.disk - {S} == once.disk;
    assert RemoveAll(made, {S}) == once;
    PutSecond(once);
  }

  lemma PutSecond(once: Store)
    requires once == Store([M3, M4], map[S := 0, M3 := 1, M4 := 1], 0, map[M3 := [1], M4 := [], N := []])
    ensures Put(once, 100, N) ==
      Swept(Store([M3, M4, N], map[S := 0, M3 := 1, M4 := 1, N := 0], 0, map[M3 := [1], M4 := [], N := []]), true)
  {
    hide CheckStale;
    var charged := Store([M3, M4], map[S := 0, M3 := 1, M4 := 1, N := 0], 0, once.disk);
    assert Charge(once, N) == charged;
    SweepNothing(charged, 2);
    assert Evict(charged, 100) == charged;
    ExceptNone([M3, M4], {N});
    assert [M3, M4] + [N] == [M3, M4, N];
  }

  lemma FirstDropped()
    ensures RemoveWriter(
      Store([M3, M4, N], map[S := 0, M3 := 1, M4 := 1, N := 0], 1, map[M3 := [1], M4 := [], N := [1]]), M3) == OneLeft().store
  {
    var disk := map[M3 := [1], M4 := [], N := [1]];
    ThreeEntries(M3, M4, N, disk);
    assert disk - {M3} == map[M4 := [], N := [1]];
    assert map[S := 0, M3 := 1, M4 := 1, N := 0][M3 := 0] == map[S := 0, M3 := 0, M4 := 1, N := 0];
  }

  lemma CloseFirst()
    ensures CloseWriter(KNOWN, Both([1]), 100, 3, A, 1) == Outcome(ONCE, OneLeft(), Done)
  {
    hide Reserve;
    hide FileServer.Push;
    ReserveFirst();
    WriteBack(KNOWN, A, [1]);
    assert Push(KNOWN, A, [1], 0) == Updated(ONCE, true);
    assert Overlay([], [1]) == [1];
    var f := Store([M3, M4, N], map[S := 0, M3 := 1, M4 := 1, N := 0], 1, map[M3 := [1], M4 := [], N := [1]]);
    assert map[M3 := [1], M4 := [], N := []][N := [1]] == f.disk;
    FirstDropped();
    hide RemoveWriter;
    assert Both([1]).sessions - {3} == map[4 := Writer(A, 1, 0)];
  }

  lemma OpenNext()
    ensures Open(ONCE, OneLeft(), 100, A, READ) == Outcome(ONCE, Reading([]), Opened(5))
  {
    var px := OneLeft();
    LastEntry(M4, N);
    assert [M4] + [N] == [M4, N];
    assert px.store.clients[N := 1] == Reading([]).store.clients;
    assert px.sessions[5 := Reader(N, 0)] == Reading([]).sessions;
  }

  lemma WriteSecond()
    ensures Write(Reading([]), 4, [2]) == (Reading([2]), Count(1))
  {
    assert WriteAt([], 0, [2]) == [2];
    assert map[M4 := [], N := [1]][M4 := [2]] == map[M4 := [2], N := [1]];
    assert Reading([]).sessions[4 := Writer(A, 1, 1)] == Reading([2]).sessions;
  }

  lemma ReserveSecond()
    ensures Reserve(Reading([2]).store, 100, N) == Swept(Reading([2]).store.(size := 1), true)
    ensures CheckStale(Reading([2]).store.(disk := Reading([2]).store.disk[N := [1]]), N).ok
  {
    hide CheckStale;
    var st := Reading([2]).store;
    assert st.disk[N := [1]] == st.disk;
    SweepNothing(st, 2);
    var charged := st.(size := 1);
    assert Charge(st, N) == charged;
    SweepNothing(charged, 2);
    assert Evict(charged, 100) == charged;
    LastEntry(M4, N);
    assert [M4] + [N] == [M4, N];
  }

  lemma CloseSecond()
    ensures CloseWriter(ONCE, Reading([2]), 100, 4, A, 1) == Outcome(TWICE, Overwritten(), Done)
    ensures CloseDebt(ONCE, Reading([2]), 100, 4) == -1
  {
    hide Reserve;
    hide FileServer.Push;
    hide CheckStale;
    ReserveSecond();
    WriteBack(ONCE, A, [2]);
    assert Overlay([1], [2]) == [2];
    assert Push(ONCE, A, [2], 0) == Updated(TWICE, true);
    var f := Store([M4, N], Reading([2]).store.clients, 1, map[M4 := [2], N := [2]]);
    assert map[M4 := [2], N := [1]][N := [2]] == f.disk;
    assert RemoveWriter(f, M4) == Overwritten().store by {
      TwoEntries(M4, N, f.disk);
      assert f.disk - {M4} == map[N := [2]];
    }
    assert Reading([2]).sessions - {4} == map[5 := Reader(N, 0)];
    CompletedDebt(ONCE, Reading([2]), 100, 4, Reading([2]).store.(size := 1));
  }

  // ---- the run

  const FIRST_FOUR := [WRITE_0, WRITE_0, WRITE_3, CLOSE_0]
  const FIRST_FIVE := [WRITE_0, WRITE_0, WRITE_3, CLOSE_0, READ_0]
  const FIRST_SIX := [WRITE_0, WRITE_0, WRITE_3, CLOSE_0, READ_0, WRITE_4]
  const ALL_SEVEN := [WRITE_0, WRITE_0, WRITE_3, CLOSE_0, READ_0, WRITE_4, CLOSE_4]

  function World(sv: ServerState, px: ProxyState): System {
    System(sv, [px, FRESH], [100, 100])
  }

  lemma FirstFour()
    ensures Run(EMPTY_A, FIRST_FOUR) == World(ONCE, OneLeft())
  {
    hide Coherence.Run;
    hide Open;
    hide ProxySpec.Write;
    hide CloseWriter;
    var w0 := Writing(A, 1, [], [], 0);
    OpenToWrite(EMPTY_A.server, 100, A);
    assert Step(EMPTY_A, WRITE_0) == World(KNOWN, w0);
    OneStep(EMPTY_A, WRITE_0, World(KNOWN, w0));
    OpenAgain();
    assert Step(World(KNOWN, w0), WRITE_0) == World(KNOWN, Both([]));
    OneMore(EMPTY_A, [WRITE_0], WRITE_0, World(KNOWN, w0), World(KNOWN, Both([])));
    assert [WRITE_0] + [WRITE_0] == [WRITE_0, WRITE_0];
    WriteFirst();
    assert Step(World(KNOWN, Both([])), WRITE_3) == World(KNOWN, Both([1]));
    OneMore(EMPTY_A, [WRITE_0, WRITE_0], WRITE_3, World(KNOWN, Both([])), World(KNOWN, Both([1])));
    assert [WRITE_0, WRITE_0] + [WRITE_3] == [WRITE_0, WRITE_0, WRITE_3];
    CloseFirst();
    assert Step(World(KNOWN, Both([1])), CLOSE_0) == World(ONCE, OneLeft());
    OneMore(EMPTY_A, [WRITE_0, WRITE_0, WRITE_3], CLOSE_0, World(KNOWN, Both([1])), World(ONCE, OneLeft()));
    assert [WRITE_0, WRITE_0, WRITE_3] + [CLOSE_0] == FIRST_FOUR;
  }

  lemma FirstFive()
    ensures Run(EMPTY_A, FIRST_FIVE) == World(ONCE, Reading([]))
  {
    hide Coherence.Run;
    hide Open;
    FirstFour();
    OpenNext();
    assert Step(World(ONCE, OneLeft()), READ_0) == World(ONCE, Reading([]));
    OneMore(EMPTY_A, FIRST_FOUR, READ_0, World(ONCE, OneLeft()), World(ONCE, Reading([])));
    assert FIRST_FOUR + [READ_0] == FIRST_FIVE;
  }

  lemma FirstSix()
    ensures Run(EMPTY_A, FIRST_SIX) == World(ONCE, Reading([2]))
  {
    hide Coherence.Run;
    hide ProxySpec.Write;
    FirstFive();
    WriteSecond();
    assert Step(World(ONCE, Reading([])), WRITE_4) == World(ONCE, Reading([2]));
    OneMore(EMPTY_A, FIRST_FIVE, WRITE_4, World(ONCE, Reading([])), World(ONCE, Reading([2])));
    assert FIRST_FIVE + [WRITE_4] == FIRST_SIX;
  }

  lemma SecondCloseStep()
    ensures Step(World(ONCE, Reading([2])), CLOSE_4) == World(TWICE, Overwritten())
  {
    hide CloseWriter;
    hide CloseDebt;
    CloseSecond();
  }

  lemma AllSeven()
    ensures Run(EMPTY_A, ALL_SEVEN) == World(TWICE, Overwritten())
  {
    hide Coherence.Run;
    hide CloseWriter;
    hide Step;
    FirstSix();
    SecondCloseStep();
    OneMore(EMPTY_A, FIRST_SIX, CLOSE_4, World(ONCE, Reading([2])), World(TWICE, Overwritten()));
    assert FIRST_SIX + [CLOSE_4] == ALL_SEVEN;
  }

  /** The reader that opened version 2 after the first close reads [1] then, and [2]
      after the second close, though no version 2 with these bytes was ever on the
      server. */
  lemma SnapshotIsOverwritten()
    ensures Initial(EMPTY_A)
    ensures var early, end := Run(EMPTY_A, FIRST_FIVE), Run(EMPTY_A, ALL_SEVEN);
      && ReadsKey(early.proxies[0], 5, N) && ReadsKey(end.proxies[0], 5, N)
      && Read(early.proxies[0], 5, 10).1 == Data([1]) && Read(end.proxies[0], 5, 10).1 == Data([2])
      && early.server == ONCE && end.server == TWICE
  {
    hide Coherence.Run;
    FirstFive();
    AllSeven();
    assert Slice([1], 0, 10) == [1] && Slice([2], 0, 10) == [2];
  }

  /** The same close charges for the cached byte of version 2 again: it moves
      curr_size one byte too far. Two bytes were lengthened and one is cached, so
      curr_size should be one byte below zero; it is zero. */
  lemma InstalledAgainIsChargedAgain()
    ensures Run(EMPTY_A, FIRST_SIX) == World(ONCE, Reading([2]))
      && CloseDebt(ONCE, Reading([2]), 100, 4) == -1
    ensures var end := Run(EMPTY_A, ALL_SEVEN).proxies[0].store;
      && end.size == 0 && Total(end.order, end.disk) == 1
    ensures Addressed(EMPTY_A, ALL_SEVEN) && LengthenedOver(EMPTY_A, ALL_SEVEN, 0) == 2
  {
    hide Coherence.Run;
    FirstSix();
    AllSeven();
    CloseSecond();
    OneTotal(N, Overwritten().store.disk);
    TwoBytesLengthened();
  }

  lemma TwoBytesLengthened()
    ensures Addressed(EMPTY_A, ALL_SEVEN) && LengthenedOver(EMPTY_A, ALL_SEVEN, 0) == 2
  {
    hide Coherence.Run;
    hide ProxySpec.Write;
    hide Lengthened;
    var e1, e2, e3 := [WRITE_0], [WRITE_0, WRITE_0], [WRITE_0, WRITE_0, WRITE_3];
    FirstFour();
    FirstFive();
    FirstSix();
    BeforeFirstWrite();
    assert Lengthened(Both([]), 3, [1]) == 1 by { WriteFirst(); LengthenedByOne(Both([]), 3, [1]); }
    assert Lengthened(Reading([]), 4, [2]) == 1 by { WriteSecond(); LengthenedByOne(Reading([]), 4, [2]); }
    assert ALL_SEVEN[..6] == FIRST_SIX && FIRST_SIX[..5] == FIRST_FIVE && FIRST_FIVE[..4] == FIRST_FOUR && FIRST_FOUR[..3] == e3;
    assert e3[..2] == e2 && e2[..1] == e1 && e1[..0] == [] && e1[0] == WRITE_0;
    var none: seq<Event> := [];
    assert LengthenedOver(EMPTY_A, none, 0) == 0;
    assert LengthenedOver(EMPTY_A, e1, 0) == 0;
    assert LengthenedOver(EMPTY_A, e2, 0) == 0;
    assert LengthenedOver(EMPTY_A, e3, 0) == 1;
    assert LengthenedOver(EMPTY_A, FIRST_FOUR, 0) == 1;
    assert LengthenedOver(EMPTY_A, FIRST_FIVE, 0) == 1;
    assert LengthenedOver(EMPTY_A, FIRST_SIX, 0) == 2;
  }

  lemma BeforeFirstWrite()
    ensures Run(EMPTY_A, [WRITE_0, WRITE_0]) == World(KNOWN, Both([]))
  {
    hide Coherence.Run;
    hide Open;
    var w0 := Writing(A, 1, [], [], 0);
    OpenToWrite(EMPTY_A.server, 100, A);
    assert Step(EMPTY_A, WRITE_0) == World(KNOWN, w0);
    OneStep(EMPTY_A, WRITE_0, World(KNOWN, w0));
    OpenAgain();
    assert Step(World(KNOWN, w0), WRITE_0) == World(KNOWN, Both([]));
    OneMore(EMPTY_A, [WRITE_0], WRITE_0, World(KNOWN, w0), World(KNOWN, Both([])));
    assert [WRITE_0] + [WRITE_0] == [WRITE_0, WRITE_0];
  }

  lemma LengthenedByOne(px: ProxyState, fd: nat, buf: Content)
    requires (px == Both([]) && fd == 3 && buf == [1] && Write(px, fd, buf).0 == Both([1]))
      || (px == Reading([]) && fd == 4 && buf == [2] && Write(px, fd, buf).0 == Reading([2]))
    ensures Lengthened(px, fd, buf) == 1
  {
    hide ProxySpec.Write;
  }
}
