/** The proxy cache of Cache.java, with the cache directory its File objects
    refer to. */
module ProxyCache {
  import opened Options
  import opened Bytes
  import opened CacheKeys
  import opened CacheSpec

  class Cache {
    const maxSize: int
    var currSize: int32
    var order: seq<Key>  // keys of the LinkedHashMap in access order
    var clients: map<Key, nat>
    var disk: map<Key, Content>

    function State(): Store
      reads this
    {
      Store(order, clients, currSize, disk)
    }

    ghost predicate Valid()
      reads this
    {
      NoDup(order) && forall k :: k in order ==> k in clients
    }

    constructor (capacity: int)
      ensures Valid() && maxSize == capacity && State() == Store([], map[], 0, map[])
    {
      maxSize := capacity;
      currSize, order, clients, disk := 0, [], map[], map[];
    }

    method Get(k: Key)
      requires Valid()
      modifies this`order
      ensures Valid() && State() == Touch(old(State()), k)
    {
      if k in order {
        ExceptNoDup(order, {k});
        InExcept(order, {k});
        order := Except(order, {k}) + [k];
      }
    }

    method AddClient(k: Key)
      requires Valid() && k in clients
      modifies this`clients
      ensures Valid() && State() == CacheSpec.AddClient(old(State()), k)
    {
      var currClients := clients[k] + 1;
      clients := clients[k := currClients];
    }

    method RemoveAt(i: nat)
      requires Valid() && i < |order|
      modifies this`currSize, this`order, this`disk
      ensures Valid() && State() == Drop(old(State()), old(order)[i])
      ensures order == old(order)[..i] + old(order)[i + 1..]
    {
      var k := order[i];
      ExceptOneAt(order, i);
      ExceptNoDup(order, {k});
      InExcept(order, {k});
      currSize := Int32(currSize - Length(disk, k));
      order := order[..i] + order[i + 1..];
      disk := disk - {k};
    }

    /** Walks the entries in access order; false when a name does not parse. */
    method CheckStaleVersions(name: Key) returns (ok: bool)
      requires Valid()
      modifies this`currSize, this`order, this`disk
      ensures Valid() && Swept(State(), ok) == CheckStale(old(State()), name)
    {
      if VersionOf(Render(name)).None? {
        return false;
      }
      ok := Sweep(TestFor(name));
    }

    method Sweep(test: Key -> StaleTest) returns (ok: bool)
      requires Valid()
      modifies this`currSize, this`order, this`disk
      ensures Valid() && Swept(State(), ok) == SweepFrom(old(State()), test, old(order))
    {
      var i := 0;
      assert order[0..] == order;
      while i < |order|
        invariant Valid() && i <= |order|
        invariant SweepFrom(State(), test, order[i..]) == SweepFrom(old(State()), test, old(order))
        decreases |order| - i
      {
        var k := order[i];
        assert order[i..] == [k] + order[i + 1..];
        ghost var rest := order[i + 1..];
        match test(k)
        case Malformed =>
          return false;
        case Stale =>
          if clients[k] == 0 {
            RemoveAt(i);
            assert order[i..] == rest;
          } else {
            i := i + 1;
          }
        case Keep =>
          i := i + 1;
      }
      ok := true;
    }

    method CheckEvict()
      requires Valid()
      modifies this`currSize, this`order, this`disk
      ensures Valid() && State() == Evict(old(State()), maxSize)
    {
      var i := 0;
      assert order[0..] == order;
      while i < |order| && currSize > maxSize
        invariant Valid() && i <= |order|
        invariant EvictFrom(State(), maxSize, order[i..]) == Evict(old(State()), maxSize)
        decreases |order| - i
      {
        var k := order[i];
        assert order[i..] == [k] + order[i + 1..];
        ghost var rest := order[i + 1..];
        if clients[k] == 0 {
          RemoveAt(i);
          assert order[i..] == rest;
        } else {
          i := i + 1;
        }
      }
    }

    method Put(k: Key) returns (ok: bool)
      requires Valid()
      modifies this`currSize, this`order, this`clients, this`disk
      ensures Valid() && k in clients && Swept(State(), ok) == CacheSpec.Put(old(State()), maxSize, k)
    {
      hide Render;
      hide VersionOf;
      hide TestFor;
      if k !in clients {
        clients := clients[k := 0];
      }
      currSize := Int32(currSize + Length(disk, k));
      assert State() == Charge(old(State()), k);
      if k.Shared? {
        ok := CheckStaleVersions(k);
        if !ok { return; }
      }
      CheckEvict();
      ExceptNoDup(order, {k});
      InExcept(order, {k});
      order := Except(order, {k}) + [k];
      ok := true;
    }

    method RemoveWriter(k: Key)
      requires Valid() && k in clients
      modifies this`currSize, this`order, this`clients, this`disk
      ensures Valid() && State() == CacheSpec.RemoveWriter(old(State()), k)
    {
      hide Render;
      hide VersionOf;
      hide TestFor;
      clients := clients[k := if clients[k] == 0 then 0 else clients[k] - 1];
      ExceptNoDup(order, {k});
      InExcept(order, {k});
      order := Except(order, {k});
      currSize := Int32(currSize - Length(disk, k));
      disk := disk - {k};
    }

    method RemoveReader(k: Key) returns (ok: bool)
      requires Valid() && k in clients
      modifies this`currSize, this`order, this`clients, this`disk
      ensures Valid() && Swept(State(), ok) == CacheSpec.RemoveReader(old(State()), k)
    {
      hide Render;
      hide VersionOf;
      hide TestFor;
      clients := clients[k := if clients[k] == 0 then 0 else clients[k] - 1];
      ok := CheckStaleVersions(k);
    }
  }
}
