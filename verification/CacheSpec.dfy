/** What the operations of Cache.java do to the cached files, as functions on
    values, and what eviction and stale removal amount to. */
module CacheSpec {
  import opened Options
  import opened Bytes
  import opened CacheKeys

  /** `order` is the access order of the LinkedHashMap, least recent first;
      `disk` is the cache directory. A cached entry is the file of its name. */
  datatype Store = Store(order: seq<Key>, clients: map<Key, nat>, size: int32, disk: map<Key, Content>)

  /** File.length(): zero for a file that does not exist. */
  function Length(disk: map<Key, Content>, k: Key): nat {
    if k in disk then |disk[k]| else 0
  }

  function Pins(st: Store, k: Key): nat {
    if k in st.clients then st.clients[k] else 0
  }

  ghost predicate NoDup(order: seq<Key>) {
    forall i, j :: 0 <= i < j < |order| ==> order[i] != order[j]
  }

  function Except(order: seq<Key>, gone: set<Key>): seq<Key> {
    if order == [] then []
    else if order[0] in gone then Except(order[1..], gone)
    else [order[0]] + Except(order[1..], gone)
  }

  function Total(keys: seq<Key>, disk: map<Key, Content>): nat {
    if keys == [] then 0 else Length(disk, keys[0]) + Total(keys[1..], disk)
  }

  /** LinkedHashMap.get: an access moves the entry to the recent end. */
  function Touch(st: Store, k: Key): Store {
    if k in st.order then st.(order := Except(st.order, {k}) + [k]) else st
  }

  /** Subtract the length, remove the entry, delete the file (Cache.java:100-103). */
  function Drop(st: Store, k: Key): Store {
    st.(order := Except(st.order, {k}), size := Int32(st.size - Length(st.disk, k)), disk := st.disk - {k})
  }

  /** checkEvict over the entries its iterator has yet to visit (Cache.java:114-125). */
  function EvictFrom(st: Store, max: int, todo: seq<Key>): Store
    decreases |todo|
  {
    if todo == [] || st.size <= max then st
    else if Pins(st, todo[0]) == 0 then EvictFrom(Drop(st, todo[0]), max, todo[1..])
    else EvictFrom(st, max, todo[1..])
  }

  function Evict(st: Store, max: int): Store {
    EvictFrom(st, max, st.order)
  }

  /** `ok` is false when the operation left by an unchecked exception. */
  datatype Swept = Swept(store: Store, ok: bool)

  /** The loop of checkStaleVersions (Cache.java:92-107), for the outcome
      `test` of its textual comparisons. */
  function SweepFrom(st: Store, test: Key -> StaleTest, todo: seq<Key>): Swept
    decreases |todo|
  {
    if todo == [] then Swept(st, true)
    else match test(todo[0])
      case Malformed => Swept(st, false)
      case Stale =>
        SweepFrom(if Pins(st, todo[0]) == 0 then Drop(st, todo[0]) else st, test, todo[1..])
      case Keep => SweepFrom(st, test, todo[1..])
  }

  function TestFor(name: Key): Key -> StaleTest
    requires VersionOf(Render(name)).Some?
  {
    k => TestNames(Render(name), Render(k))
  }

  function CheckStale(st: Store, name: Key): Swept {
    if VersionOf(Render(name)).None? then Swept(st, false) else SweepFrom(st, TestFor(name), st.order)
  }

  /** The first lines of put (Cache.java:150-152). */
  function Charge(st: Store, k: Key): Store {
    st.(clients := if k in st.clients then st.clients else st.clients[k := 0],
        size := Int32(st.size + Length(st.disk, k)))
  }

  function Put(st: Store, max: int, k: Key): Swept {
    var swept := if k.Shared? then CheckStale(Charge(st, k), k) else Swept(Charge(st, k), true);
    if !swept.ok then swept
    else
      var room := Evict(swept.store, max);
      Swept(room.(order := Except(room.order, {k}) + [k]), true)
  }

  function AddClient(st: Store, k: Key): Store {
    st.(clients := st.clients[k := Pins(st, k) + 1])
  }

  function Unpin(st: Store, k: Key): Store {
    st.(clients := st.clients[k := if Pins(st, k) == 0 then 0 else Pins(st, k) - 1])
  }

  /** removeClient of a private copy deletes it (Cache.java:72-78). */
  function RemoveWriter(st: Store, k: Key): Store {
    Drop(Unpin(st, k), k)
  }

  function RemoveReader(st: Store, k: Key): Swept {
    CheckStale(Unpin(st, k), k)
  }

  /** Removing a set of entries: the others keep their order and contents, and
      the size falls by the lengths of the removed ones. */
  function RemoveAll(st: Store, gone: set<Key>): Store {
    var order := Except(st.order, gone);
    st.(order := order, disk := st.disk - gone,
        size := Int32(st.size - Total(st.order, st.disk) + Total(order, st.disk)))
  }

  // ---- sequences of entries

  lemma {:induction false} InExcept(order: seq<Key>, gone: set<Key>)
    ensures forall k :: k in Except(order, gone) <==> k in order && k !in gone
  {
    if order != [] {
      InExcept(order[1..], gone);
      assert order == [order[0]] + order[1..];
    }
  }

  lemma {:induction false} ExceptNoDup(order: seq<Key>, gone: set<Key>)
    requires NoDup(order)
    ensures NoDup(Except(order, gone))
  {
    if order != [] {
      ExceptNoDup(order[1..], gone);
      InExcept(order[1..], gone);
      assert order[0] !in order[1..];
    }
  }

  lemma {:induction false} ExceptNone(order: seq<Key>, gone: set<Key>)
    requires forall k :: k in order ==> k !in gone
    ensures Except(order, gone) == order
  {
    if order != [] {
      ExceptNone(order[1..], gone);
    }
  }

  lemma {:induction false} ExceptTwice(order: seq<Key>, a: set<Key>, b: set<Key>)
    ensures Except(Except(order, a), b) == Except(order, a + b)
  {
    if order != [] {
      ExceptTwice(order[1..], a, b);
      var rest := Except(order[1..], a);
      if order[0] !in a {
        assert ([order[0]] + rest)[1..] == rest;
      }
    }
  }

  lemma {:induction false} ExceptOneAt(order: seq<Key>, i: nat)
    requires NoDup(order) && i < |order|
    ensures Except(order, {order[i]}) == order[..i] + order[i + 1..]
  {
    if i == 0 {
      ExceptNone(order[1..], {order[0]});
    } else {
      ExceptOneAt(order[1..], i - 1);
    }
  }

  lemma {:induction false} TotalFrame(keys: seq<Key>, a: map<Key, Content>, b: map<Key, Content>)
    requires forall k :: k in keys ==> Length(a, k) == Length(b, k)
    ensures Total(keys, a) == Total(keys, b)
  {
    if keys != [] {
      TotalFrame(keys[1..], a, b);
    }
  }

  lemma {:induction false} TotalAppend(a: seq<Key>, b: seq<Key>, disk: map<Key, Content>)
    ensures Total(a + b, disk) == Total(a, disk) + Total(b, disk)
  {
    if a == [] {
      assert a + b == b;
    } else {
      assert (a + b)[1..] == a[1..] + b;
      TotalAppend(a[1..], b, disk);
    }
  }

  // Removing one more entry lowers the total by its length.
  lemma {:induction false} TotalExcept(order: seq<Key>, gone: set<Key>, k: Key, disk: map<Key, Content>)
    requires NoDup(order) && k !in gone
    ensures Total(Except(order, gone), disk) ==
      Total(Except(order, gone + {k}), disk) + if k in order then Length(disk, k) else 0
  {
    if order != [] {
      assert order == [order[0]] + order[1..];
      TotalExcept(order[1..], gone, k, disk);
      assert order[0] !in order[1..];
      if order[0] == k {
        assert forall x :: x in gone + {k} <==> x in gone || x == k;
      }
    }
  }

  lemma RemoveNone(st: Store)
    ensures RemoveAll(st, {}) == st
  {
    ExceptNone(st.order, {});
    assert st.disk - {} == st.disk;
  }

  // Dropping one entry after removing a set is removing the larger set.
  lemma DropIsRemoval(st: Store, gone: set<Key>, k: Key)
    requires NoDup(st.order) && k in st.order && k !in gone
    ensures Drop(RemoveAll(st, gone), k) == RemoveAll(st, gone + {k})
  {
    hide Total;
    hide Except;
    hide Int32;
    ExceptTwice(st.order, gone, {k});
    TotalExcept(st.order, gone, k, st.disk);
    var t: int, t1: int := Total(st.order, st.disk), Total(Except(st.order, gone), st.disk);
    Int32Sum(st.size - (t - t1), 0 - Length(st.disk, k));
    assert (st.disk - gone) - {k} == st.disk - (gone + {k});
    assert Length(st.disk - gone, k) == Length(st.disk, k);
  }

  /** What a removal keeps. */
  lemma RemovalKeeps(st: Store, gone: set<Key>)
    requires NoDup(st.order)
    ensures var r := RemoveAll(st, gone);
      && NoDup(r.order) && r.clients == st.clients
      && (forall k :: k in r.order <==> k in st.order && k !in gone)
      && (forall k :: k in r.disk <==> k in st.disk && k !in gone)
      && (forall k :: k in r.disk ==> r.disk[k] == st.disk[k])
      && r.size == Int32(st.size - Total(st.order, st.disk) + Total(r.order, r.disk))
  {
    ExceptNoDup(st.order, gone);
    InExcept(st.order, gone);
    TotalFrame(Except(st.order, gone), st.disk, st.disk - gone);
  }

  // ---- eviction

  /** The unpinned among the n least recently used entries. */
  function Unpinned(st: Store, n: nat): set<Key>
    requires n <= |st.order|
  {
    set k | k in st.order[..n] && Pins(st, k) == 0
  }

  /** The least m >= n such that without the unpinned among the first m entries
      the cache fits; all of them if there is none. */
  function Cut(st: Store, max: int, n: nat): (m: nat)
    requires n <= |st.order|
    ensures n <= m <= |st.order|
    ensures m == |st.order| || RemoveAll(st, Unpinned(st, m)).size <= max
    ensures forall i :: n <= i < m ==> RemoveAll(st, Unpinned(st, i)).size > max
    decreases |st.order| - n
  {
    if n == |st.order| || RemoveAll(st, Unpinned(st, n)).size <= max then n else Cut(st, max, n + 1)
  }

  lemma {:induction false} EvictFromIsLru(st: Store, max: int, n: nat)
    requires NoDup(st.order) && n <= |st.order|
    ensures EvictFrom(RemoveAll(st, Unpinned(st, n)), max, st.order[n..]) ==
      RemoveAll(st, Unpinned(st, Cut(st, max, n)))
    decreases |st.order| - n
  {
    hide Except;
    hide Total;
    hide Int32;
    var cur := RemoveAll(st, Unpinned(st, n));
    if n < |st.order| && cur.size > max {
      var k := st.order[n];
      assert st.order[..n + 1] == st.order[..n] + [k];
      assert st.order[n..][1..] == st.order[n + 1..];
      assert k !in Unpinned(st, n);
      if Pins(st, k) == 0 {
        DropIsRemoval(st, Unpinned(st, n), k);
        assert Unpinned(st, n + 1) == Unpinned(st, n) + {k};
      } else {
        assert Unpinned(st, n + 1) == Unpinned(st, n);
      }
      EvictFromIsLru(st, max, n + 1);
    }
  }

  /** Eviction removes exactly the unpinned entries of the shortest prefix in
      access order that brings the cache within its budget; if no prefix does,
      every entry that is left is pinned. */
  lemma EvictIsLru(st: Store, max: int)
    requires NoDup(st.order)
    ensures Evict(st, max) == RemoveAll(st, Unpinned(st, Cut(st, max, 0)))
    ensures Evict(st, max).size <= max
      || forall k :: k in Evict(st, max).order ==> Pins(st, k) > 0
  {
    EvictFromIsLru(st, max, 0);
    assert Unpinned(st, 0) == {};
    RemoveNone(st);
    assert st.order[0..] == st.order;
    InExcept(st.order, Unpinned(st, |st.order|));
  }

  // ---- stale removal

  /** The unpinned entries of `keys` that the test calls stale. */
  ghost function StaleIn(st: Store, test: Key -> StaleTest, keys: seq<Key>): set<Key> {
    set k | k in keys && Pins(st, k) == 0 && test(k) == Stale
  }

  lemma SweepOne(st: Store, test: Key -> StaleTest, n: nat)
    requires NoDup(st.order) && n < |st.order|
    ensures var gone, k := StaleIn(st, test, st.order[..n]), st.order[n];
      RemoveAll(st, StaleIn(st, test, st.order[..n + 1])) ==
        if test(k) == Stale && Pins(st, k) == 0 then Drop(RemoveAll(st, gone), k) else RemoveAll(st, gone)
  {
    var gone, k := StaleIn(st, test, st.order[..n]), st.order[n];
    assert st.order[..n + 1] == st.order[..n] + [k];
    if test(k) == Stale && Pins(st, k) == 0 {
      assert k !in st.order[..n];
      DropIsRemoval(st, gone, k);
      assert StaleIn(st, test, st.order[..n + 1]) == gone + {k};
    } else {
      assert StaleIn(st, test, st.order[..n + 1]) == gone;
    }
  }

  /** A sweep removes unpinned stale entries: all of them unless some name
      raises an exception. */
  lemma {:induction false} SweepFromRemoves(st: Store, test: Key -> StaleTest, n: nat) returns (gone: set<Key>)
    requires NoDup(st.order) && n <= |st.order|
    ensures var r := SweepFrom(RemoveAll(st, StaleIn(st, test, st.order[..n])), test, st.order[n..]);
      && r.store == RemoveAll(st, gone)
      && gone <= StaleIn(st, test, st.order)
      && (r.ok ==> gone == StaleIn(st, test, st.order))
      && (r.ok <==> forall k :: k in st.order[n..] ==> test(k) != Malformed)
    decreases |st.order| - n
  {
    gone := StaleIn(st, test, st.order[..n]);
    if n == |st.order| {
      assert st.order[..n] == st.order;
    } else {
      assert st.order[n..] == [st.order[n]] + st.order[n + 1..];
      if test(st.order[n]) != Malformed {
        SweepOne(st, test, n);
        gone := SweepFromRemoves(st, test, n + 1);
      }
    }
  }

  lemma SweepRemoves(st: Store, test: Key -> StaleTest) returns (gone: set<Key>)
    requires NoDup(st.order)
    ensures var r := SweepFrom(st, test, st.order);
      && r.store == RemoveAll(st, gone)
      && gone <= StaleIn(st, test, st.order)
      && (r.ok ==> gone == StaleIn(st, test, st.order))
      && (r.ok <==> forall k :: k in st.order ==> test(k) != Malformed)
  {
    RemoveNone(st);
    assert st.order[0..] == st.order;
    assert StaleIn(st, test, st.order[..0]) == {};
    gone := SweepFromRemoves(st, test, 0);
  }

  lemma CheckStaleRemoves(st: Store, name: Key) returns (gone: set<Key>)
    requires NoDup(st.order)
    ensures CheckStale(st, name).store == RemoveAll(st, gone)
    ensures forall k :: k in gone ==> k in st.order && Pins(st, k) == 0
    ensures name !in gone
  {
    RemoveNone(st);
    gone := {};
    if VersionOf(Render(name)).Some? {
      gone := SweepRemoves(st, TestFor(name));
      assert TestFor(name)(name) != Stale;
    }
  }

  /** On a prefix-free set of cached paths checkStaleVersions removes precisely
      the unpinned shared entries of the same path with another version, keeps
      the rest in the same access order, lowers the size by exactly their
      lengths, and raises no exception. */
  lemma StaleRemovalIsExact(st: Store, paths: set<string>, p: string, v: nat)
    requires NoDup(st.order) && PrefixFree(paths) && p in paths
    requires forall k :: k in st.order ==> k.path in paths
    ensures CheckStale(st, Shared(p, v)) == Swept(RemoveAll(st, OtherVersions(st, p, v)), true)
  {
    var name := Shared(p, v);
    StaleTestIsExact(paths, p, v, name);
    var gone := OtherVersions(st, p, v);
    forall k | k in st.order
      ensures TestFor(name)(k) == if k.Shared? && k.path == p && k.ver != v then Stale else Keep
    {
      StaleTestIsExact(paths, p, v, k);
    }
    assert StaleIn(st, TestFor(name), st.order) == gone;
    var _ := SweepRemoves(st, TestFor(name));
  }

  /** The unpinned shared entries of a path with another version. */
  ghost function OtherVersions(st: Store, p: string, v: nat): set<Key> {
    set k | k in st.order && k.Shared? && k.path == p && k.ver != v && Pins(st, k) == 0
  }

  /** The exact condition, for any cache: checkStaleVersions removes just those
      entries and raises nothing if and only if the test is right for every entry
      but pinned ones that it calls stale. */
  lemma StaleRemovalIsExactIff(st: Store, p: string, v: nat)
    requires NoDup(st.order)
    ensures VersionOf(Render(Shared(p, v))).Some?
    ensures CheckStale(st, Shared(p, v)) == Swept(RemoveAll(st, OtherVersions(st, p, v)), true) <==>
      forall k :: k in st.order ==>
        TestIsRight(p, v, k) || (Pins(st, k) > 0 && TestNames(Render(Shared(p, v)), Render(k)) == Stale)
  {
    StaleTestIsRightIff(p, v, Shared(p, v));
    hide Render;
    hide TestNames;
    hide VersionOf;
    var test, exact := TestFor(Shared(p, v)), OtherVersions(st, p, v);
    var gone := SweepRemoves(st, test);
    forall k | k in st.order && k.path == p ensures TestIsRight(p, v, k) {
      StaleTestIsRightIff(p, v, k);
    }
    if CheckStale(st, Shared(p, v)) == Swept(RemoveAll(st, exact), true) {
      SameRemoval(st, gone, exact);
    } else {
      assert (forall k :: k in st.order ==> test(k) != Malformed) ==> StaleIn(st, test, st.order) != exact;
    }
  }

  lemma SameRemoval(st: Store, a: set<Key>, b: set<Key>)
    requires RemoveAll(st, a) == RemoveAll(st, b)
    ensures forall k :: k in st.order ==> (k in a <==> k in b)
  {
    InExcept(st.order, a);
    InExcept(st.order, b);
    hide Except;
    assert RemoveAll(st, a).order == RemoveAll(st, b).order;
  }

  // ---- put

  /** put of any entry: after the charge a set of unpinned entries is removed
      and, unless an exception intervenes, the entry becomes the most recent. */
  lemma PutRemoves(st: Store, max: int, k: Key) returns (gone: set<Key>)
    requires NoDup(st.order)
    ensures forall x :: x in gone ==> x in st.order && Pins(st, x) == 0
    ensures var r := Put(st, max, k); var kept := RemoveAll(Charge(st, k), gone);
      r.store == if r.ok then kept.(order := Except(kept.order, {k}) + [k]) else kept
  {
    hide CheckStale;
    hide Evict;
    var st0 := Charge(st, k);
    RemoveNone(st0);
    gone := {};
    var st1 := st0;
    if k.Shared? {
      gone := CheckStaleRemoves(st0, k);
      st1 := CheckStale(st0, k).store;
      if !CheckStale(st0, k).ok { return; }
    }
    RemovalKeeps(st0, gone);
    EvictIsLru(st1, max);
    var more := Unpinned(st1, Cut(st1, max, 0));
    RemoveTwice(st0, gone, more);
    gone := gone + more;
  }

  lemma RemoveTwice(st: Store, a: set<Key>, b: set<Key>)
    requires NoDup(st.order)
    ensures RemoveAll(RemoveAll(st, a), b) == RemoveAll(st, a + b)
  {
    hide Total;
    hide Except;
    hide Int32;
    ExceptTwice(st.order, a, b);
    RemovalKeeps(st, a);
    var ta: int, tab: int := Total(Except(st.order, a), st.disk), Total(Except(st.order, a + b), st.disk);
    InExcept(st.order, a + b);
    TotalFrame(Except(st.order, a + b), st.disk, st.disk - a);
    TotalFrame(Except(st.order, a), st.disk, st.disk - a);
    Int32Sum(st.size - (Total(st.order, st.disk) - ta), tab - ta);
    assert (st.disk - a) - b == st.disk - (a + b);
  }

  /** The unpinned entries that the put of k takes for stale: none if k is a
      private copy. */
  ghost function StaleFor(st: Store, k: Key): set<Key> {
    if k.Private? || VersionOf(Render(k)).None? then {}
    else set x | x in st.order && Pins(st, x) == 0 && TestNames(Render(k), Render(x)) == Stale
  }

  /** The store after the charge and the stale removal of a put. */
  ghost function AfterSweep(st: Store, k: Key): Store {
    RemoveAll(Charge(st, k), StaleFor(st, k))
  }

  /** What a put that completes does, exactly: every unpinned entry that the test
      calls stale goes, whatever the budget; then the unpinned entries of the
      shortest prefix that makes the rest fit, and no other; and the entry put is
      the most recent. */
  lemma PutIsExact(st: Store, max: int, k: Key)
    requires NoDup(st.order) && Put(st, max, k).ok
    ensures var swept := AfterSweep(st, k);
      var room := RemoveAll(swept, Unpinned(swept, Cut(swept, max, 0)));
      Put(st, max, k).store == room.(order := Except(room.order, {k}) + [k])
    ensures k !in StaleFor(st, k)
  {
    hide Render;
    hide TestNames;
    hide VersionOf;
    hide Int32;
    var st0 := Charge(st, k);
    var swept := AfterSweep(st, k);
    RemoveNone(st0);
    if k.Shared? {
      StaleTestIsRightIff(k.path, k.ver, k);
      var _ := SweepRemoves(st0, TestFor(k));
      assert StaleIn(st0, TestFor(k), st0.order) == StaleFor(st, k);
    }
    RemovalKeeps(st0, StaleFor(st, k));
    EvictIsLru(swept, max);
  }

  /** So no unpinned entry that the test calls stale is left by a put, and its file
      is gone; and if the cache fits once these are gone, nothing else is. */
  lemma PutLeavesNothingStale(st: Store, max: int, k: Key)
    requires NoDup(st.order) && Put(st, max, k).ok
    ensures var r := Put(st, max, k).store;
      && (forall x :: x in StaleFor(st, k) ==> x !in r.order && x !in r.disk)
      && (AfterSweep(st, k).size <= max ==>
            && (forall x :: x in r.order <==> (x in st.order && x !in StaleFor(st, k)) || x == k)
            && (forall x :: x in r.disk <==> x in st.disk && x !in StaleFor(st, k)))
  {
    hide Put;
    hide StaleFor;
    hide Int32;
    hide Total;
    hide Cut;
    PutIsExact(st, max, k);
    var gone, swept := StaleFor(st, k), AfterSweep(st, k);
    RemovalKeeps(Charge(st, k), gone);
    hide Except;
    var cut := Unpinned(swept, Cut(swept, max, 0));
    RemovalKeeps(swept, cut);
    InExcept(RemoveAll(swept, cut).order, {k});
    if swept.size <= max { NothingToCut(swept, max); }
  }

  lemma NothingToCut(st: Store, max: int)
    requires st.size <= max
    ensures Cut(st, max, 0) == 0 && Unpinned(st, 0) == {}
  {
    RemoveNone(st);
    assert Unpinned(st, 0) == {};
  }

  /** On prefix-free paths a put of version v of p completes and leaves no unpinned
      entry, and no file, of another version of p. */
  lemma PutLeavesNoOtherVersion(st: Store, max: int, paths: set<string>, p: string, v: nat)
    requires NoDup(st.order) && PrefixFree(paths) && p in paths && forall x :: x in st.order ==> x.path in paths
    ensures var r := Put(st, max, Shared(p, v));
      && r.ok && StaleFor(st, Shared(p, v)) == OtherVersions(st, p, v)
      && (forall x :: x in OtherVersions(st, p, v) ==> x !in r.store.order && x !in r.store.disk)
  {
    hide Render;
    hide TestNames;
    hide VersionOf;
    var k := Shared(p, v);
    StaleTestIsRightIff(p, v, k);
    forall x | x in st.order
      ensures TestNames(Render(k), Render(x)) == if x.Shared? && x.path == p && x.ver != v then Stale else Keep
    {
      StaleTestIsExact(paths, p, v, x);
    }
    StaleRemovalIsExact(Charge(st, k), paths, p, v);
    hide CheckStale;
    PutLeavesNothingStale(st, max, k);
  }

  /** put of a new entry ends within the budget or with every other entry pinned. */
  lemma PutBudget(st: Store, max: int, k: Key)
    requires NoDup(st.order) && k !in st.order && Put(st, max, k).ok
    ensures var r := Put(st, max, k).store;
      r.size <= max || forall x :: x in r.order && x != k ==> Pins(r, x) > 0
  {
    var st0 := Charge(st, k);
    var st1 := st0;
    if k.Shared? {
      var gone := CheckStaleRemoves(st0, k);
      RemovalKeeps(st0, gone);
      st1 := CheckStale(st0, k).store;
    }
    EvictIsLru(st1, max);
    var room := Evict(st1, max);
    RemovalKeeps(st1, Unpinned(st1, Cut(st1, max, 0)));
    InExcept(room.order, {k});
  }

  /** `r` is the outcome of putting k after removing `gone`. */
  ghost predicate PutKept(st: Store, k: Key, gone: set<Key>, ok: bool, r: Store) {
    && NoDup(r.order) && r.clients == Charge(st, k).clients
    && (forall x :: x in gone ==> x in st.order && Pins(st, x) == 0)
    && (forall x :: x in r.disk <==> x in st.disk && x !in gone)
    && (forall x :: x in r.disk ==> r.disk[x] == st.disk[x])
    && (forall x :: x in r.order <==> (x in st.order && x !in gone) || (ok && x == k))
    && r.size == Int32(st.size + (if ok && k !in st.order then 0 else Length(st.disk, k))
         - Total(st.order, st.disk) + Total(r.order, r.disk))
  }

  lemma AfterPut(st: Store, k: Key, gone: set<Key>, ok: bool)
    requires NoDup(st.order) && forall x :: x in gone ==> x in st.order && Pins(st, x) == 0
    ensures var kept := RemoveAll(Charge(st, k), gone);
      PutKept(st, k, gone, ok, if ok then kept.(order := Except(kept.order, {k}) + [k]) else kept)
  {
    hide Total;
    hide Except;
    hide Int32;
    var kept := RemoveAll(Charge(st, k), gone);
    RemovalKeeps(Charge(st, k), gone);
    if ok {
      MoveLast(kept.order, k);
      ChargeBalances(st, k, gone);
    } else {
      Int32Sum(st.size + Length(st.disk, k), Total(kept.order, kept.disk) - Total(st.order, st.disk));
    }
  }

  lemma MoveLast(order: seq<Key>, k: Key)
    requires NoDup(order)
    ensures var moved := Except(order, {k}) + [k];
      NoDup(moved) && (forall x :: x in moved <==> x in order || x == k) && (k !in order ==> moved == order + [k])
  {
    InExcept(order, {k});
    ExceptNoDup(order, {k});
    if k !in order {
      ExceptNone(order, {k});
    }
  }

  lemma ChargeBalances(st: Store, k: Key, gone: set<Key>)
    requires NoDup(st.order) && forall x :: x in gone ==> x in st.order
    ensures var kept := RemoveAll(Charge(st, k), gone);
      kept.size == Int32(st.size + (if k in st.order then Length(st.disk, k) else 0)
        - Total(st.order, st.disk) + Total(Except(kept.order, {k}) + [k], kept.disk))
  {
    var kept := RemoveAll(Charge(st, k), gone);
    RemovalKeeps(Charge(st, k), gone);
    TotalAppend(Except(kept.order, {k}), [k], kept.disk);
    ExceptNone(kept.order, {});
    TotalExcept(kept.order, {}, k, kept.disk);
    assert {} + {k} == {k};
    assert Length(kept.disk, k) == if k in gone then 0 else Length(st.disk, k);
    Int32Sum(st.size + Length(st.disk, k), Total(kept.order, kept.disk) - Total(st.order, st.disk));
  }

  /** What a put keeps, whatever it removes. */
  lemma PutKeeps(st: Store, max: int, k: Key) returns (gone: set<Key>)
    requires NoDup(st.order)
    ensures PutKept(st, k, gone, Put(st, max, k).ok, Put(st, max, k).store)
  {
    gone := PutRemoves(st, max, k);
    AfterPut(st, k, gone, Put(st, max, k).ok);
  }

  lemma CheckStaleKeepsClients(st: Store, name: Key)
    requires NoDup(st.order)
    ensures CheckStale(st, name).store.clients == st.clients
  {
    var _ := CheckStaleRemoves(st, name);
  }

  lemma PutKeepsClients(st: Store, max: int, k: Key)
    requires NoDup(st.order)
    ensures Put(st, max, k).store.clients == if k in st.clients then st.clients else st.clients[k := 0]
  {
    var _ := PutRemoves(st, max, k);
  }
}
