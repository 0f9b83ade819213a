/** The file handler of Proxy.java, in its own imperative form. Each call is one
    atomic step against the server. */
module Proxy {
  import opened Bytes
  import opened CacheKeys
  import opened CacheSpec
  import opened FileServer
  import opened ProxyCache
  import Spec = ProxySpec
  import opened ProxySpec

  class FileHandler {
    const stub: Server
    const cache: Cache
    var sessions: map<nat, Session>  // fd_paths, with the file pointers of fd_files
    var currFd: nat

    function State(): ProxyState
      reads this, cache
    {
      ProxyState(cache.State(), sessions, currFd)
    }

    ghost predicate Valid()
      reads this, cache
    {
      && cache.Valid()
      && forall fd :: fd in sessions ==> KeyOf(sessions[fd], fd) in cache.clients
    }

    constructor (server: Server, capacity: int)
      ensures Valid() && stub == server && fresh(cache) && cache.maxSize == capacity
      ensures State() == ProxyState(Store([], map[], 0, map[]), map[], 3)
    {
      stub := server;
      cache := new Cache(capacity);
      sessions, currFd := map[], 3;
    }

    method GetFd() returns (fd: nat)
      modifies this`currFd
      ensures fd == old(currFd) && currFd == fd + 1
    {
      fd := currFd;
      currFd := currFd + 1;
    }

    /** Copies the server's file over the local one, chunk by chunk. */
    method CopyFromServer(path: string, k: Key)
      requires path in stub.files
      modifies stub`files, cache`disk
      ensures stub.files == old(stub.files)
      ensures cache.disk == old(cache.disk)[k := Overlay(FileOf(old(cache.disk), k), stub.files[path])]
    {
      var length := stub.GetFileLength(path);
      ghost var bytes := stub.files[path];
      ghost var base := FileOf(cache.disk, k);
      if k !in cache.disk {
        cache.disk := cache.disk[k := []];
      }
      var currPos := 0;
      assert Overlay(base, bytes[..0]) == base;
      while currPos < length
        invariant currPos <= length == |bytes|
        invariant stub.files == old(stub.files)
        invariant cache.disk == old(cache.disk)[k := Overlay(base, bytes[..currPos])]
      {
        var buf, _ := stub.GetFileInfo(path, currPos);
        var next := currPos + |buf.value|;
        assert buf.value == bytes[currPos..next];
        WriteExtendsOverlay(base, bytes, currPos, next);
        cache.disk := cache.disk[k := WriteAt(cache.disk[k], currPos, buf.value)];
        currPos := next;
      }
      assert bytes[..currPos] == bytes;
    }

    /** Copies `base` over the local file of k, chunk by chunk. */
    method CopyLocally(base: Content, k: Key)
      modifies cache`disk
      ensures cache.disk == old(cache.disk)[k := Overlay(FileOf(old(cache.disk), k), base)]
    {
      ghost var was := FileOf(cache.disk, k);
      if k !in cache.disk {
        cache.disk := cache.disk[k := []];
      }
      var currPos := 0;
      assert Overlay(was, base[..0]) == was;
      while currPos < |base|
        invariant currPos <= |base|
        invariant cache.disk == old(cache.disk)[k := Overlay(was, base[..currPos])]
      {
        var buf := ChunkAt(base, currPos);
        var next := currPos + |buf|;
        WriteExtendsOverlay(was, base, currPos, next);
        cache.disk := cache.disk[k := WriteAt(cache.disk[k], currPos, buf)];
        currPos := next;
      }
      assert base[..currPos] == base;
    }

    method MakeWriter(path: string, ver: nat, base: Content) returns (fd: nat)
      requires Valid()
      modifies this, cache
      ensures Valid() && fd == old(currFd)
      ensures State() == GrantWriter(old(State()), cache.maxSize, path, ver, base)
    {
      hide CacheSpec.Put;
      fd := GetFd();
      var k := Private(path, ver, fd);
      CopyLocally(base, k);
      sessions := sessions[fd := Writer(path, ver, 0)];
      ghost var st := cache.State();
      var ok := cache.Put(k);
      PutKeepsClients(st, cache.maxSize, k);
      cache.AddClient(k);
    }

    method MakeReader(k: Key) returns (fd: nat)
      requires Valid() && k in cache.clients
      modifies this, cache
      ensures Valid() && fd == old(currFd)
      ensures State() == GrantReader(old(State()), k)
    {
      cache.AddClient(k);
      fd := GetFd();
      sessions := sessions[fd := Reader(k, 0)];
    }

    method FetchAndPut(path: string, k: Key) returns (ok: bool)
      requires Valid() && path in stub.files
      modifies stub`files, cache
      ensures Valid() && k in cache.clients
      ensures stub.State() == old(stub.State()) && sessions == old(sessions) && currFd == old(currFd)
      ensures Swept(cache.State(), ok) == Fetch(old(cache.State()), cache.maxSize, k, stub.files[path])
    {
      CopyFromServer(path, k);
      ghost var st := cache.State();
      ok := cache.Put(k);
      PutKeepsClients(st, cache.maxSize, k);
    }

    method FetchForWriter(path: string, ver: nat) returns (reply: Reply)
      requires Valid() && path in stub.files
      modifies this, stub`files, cache
      ensures Valid()
      ensures Outcome(stub.State(), State(), reply) ==
        FetchThenWrite(old(stub.State()), old(State()), cache.maxSize, path, ver)
    {
      var k := Shared(path, ver);
      ghost var base := Overlay(FileOf(cache.disk, k), stub.files[path]);
      ghost var st := cache.State();
      CopyFromServer(path, k);
      var shared := cache.disk[k];
      ghost var st1 := cache.State();
      var ok := cache.Put(k);
      PutKeepsClients(st1, cache.maxSize, k);
      if !ok { return Thrown; }
      var fd := MakeWriter(path, ver, shared);
      reply := Opened(fd);
    }

    method Open(path: string, mode: OpenMode) returns (reply: Reply)
      requires Valid()
      modifies this, stub, cache
      ensures Valid()
      ensures Outcome(stub.State(), State(), reply) ==
        Spec.Open(old(stub.State()), old(State()), cache.maxSize, path, mode)
    {
      var maxVer := stub.ServerExists(path);
      var hit := Hit(cache.order, path, maxVer);
      match mode
      case CREATE =>
        if hit.Some? {
          var base := FileOf(cache.disk, hit.value);
          cache.Get(hit.value);
          var fd := MakeWriter(path, maxVer, base);
          return Opened(fd);
        }
        if maxVer == 0 {
          stub.CreateFile(path);
          maxVer := maxVer + 1;
        }
        reply := FetchForWriter(path, maxVer);
      case CREATE_NEW =>
        if hit.Some? || maxVer != 0 || Shared(path, 1) in cache.disk {
          return Failed(EEXIST);
        }
        stub.CreateFile(path);
        reply := FetchForWriter(path, 1);
      case READ =>
        var k := Shared(path, maxVer);
        if hit.Some? {
          k := hit.value;
          cache.Get(k);
        } else {
          if maxVer == 0 { return Failed(ENOENT); }
          var ok := FetchAndPut(path, k);
          if !ok { return Thrown; }
        }
        var fd := MakeReader(k);
        reply := Opened(fd);
      case WRITE =>
        if hit.Some? {
          var base := FileOf(cache.disk, hit.value);
          cache.Get(hit.value);
          var fd := MakeWriter(path, maxVer, base);
          return Opened(fd);
        }
        if maxVer == 0 { return Failed(ENOENT); }
        reply := FetchForWriter(path, maxVer);
    }

    /** One turn of the loop of close: the local range is cleared, the server
        updated, the local range written. */
    method PushChunk(path: string, buf: Content, pos: nat, next: Key) returns (ok: bool)
      requires next in cache.disk
      modifies stub, cache`disk
      ensures Updated(stub.State(), ok) == Update(old(stub.State()), path, buf, pos)
      ensures cache.disk == old(cache.disk)[next :=
        WriteAt(old(cache.disk[next]), pos, if ok then buf else Zeros(|buf|))]
    {
      ClearThenWrite(cache.disk[next], pos, buf);
      cache.disk := cache.disk[next := WriteAt(cache.disk[next], pos, Zeros(|buf|))];
      ok := stub.UpdateFile(path, buf, pos);
      if ok {
        cache.disk := cache.disk[next := WriteAt(cache.disk[next], pos, buf)];
      }
    }

    method PushChunks(path: string, data: Content, next: Key) returns (ok: bool)
      requires next in cache.disk
      modifies stub, cache`disk
      ensures Updated(stub.State(), ok) == Push(old(stub.State()), path, data, 0)
      ensures cache.disk == old(cache.disk)[next :=
        if ok then Overlay(old(cache.disk[next]), data)
        else WriteAt(old(cache.disk[next]), 0, Zeros(|ChunkAt(data, 0)|))]
    {
      var currPos := 0;
      ghost var base := cache.disk[next];
      assert Overlay(base, data[..0]) == base;
      while currPos < |data|
        invariant currPos <= |data|
        invariant currPos > 0 ==> path in stub.maxVersions
        invariant cache.disk == old(cache.disk)[next := Overlay(base, data[..currPos])]
        invariant Push(stub.State(), path, data, currPos) == Push(old(stub.State()), path, data, 0)
      {
        var buf := ChunkAt(data, currPos);
        WriteExtendsOverlay(base, data, currPos, currPos + |buf|);
        ok := PushChunk(path, buf, currPos, next);
        if !ok { return; }
        currPos := currPos + |buf|;
      }
      assert data[..currPos] == data;
      ok := true;
    }

    method CloseReader(fd: nat) returns (reply: Reply)
      requires Valid() && fd in sessions && sessions[fd].Reader?
      modifies this, cache
      ensures Valid()
      ensures (State(), reply) == Spec.CloseReader(old(State()), fd, old(sessions)[fd].key)
    {
      var k := sessions[fd].key;
      sessions := sessions - {fd};
      cache.Get(k);
      ghost var st := cache.State();
      var ok := cache.RemoveReader(k);
      CheckStaleKeepsClients(Unpin(st, k), k);
      if !ok { return Thrown; }
      ghost var st1 := cache.State();
      ok := cache.CheckStaleVersions(k);
      CheckStaleKeepsClients(st1, k);
      reply := if ok then Done else Thrown;
    }

    method Reserve(next: Key) returns (ok: bool)
      requires Valid()
      modifies cache
      ensures Valid() && forall k :: k in old(cache.clients) ==> k in cache.clients
      ensures Swept(cache.State(), ok) == Spec.Reserve(old(cache.State()), cache.maxSize, next)
    {
      cache.disk := cache.disk[next := FileOf(cache.disk, next)];
      ghost var st := cache.State();
      ok := cache.CheckStaleVersions(next);
      CheckStaleKeepsClients(st, next);
      if !ok { return; }
      ghost var st1 := cache.State();
      ok := cache.Put(next);
      PutKeepsClients(st1, cache.maxSize, next);
    }

    method Deliver(fd: nat, path: string, ver: nat, data: Content) returns (reply: Reply)
      requires Valid() && Private(path, ver, fd) in cache.clients
      modifies this, stub, cache
      ensures Valid()
      ensures Outcome(stub.State(), State(), reply) ==
        Spec.Deliver(old(stub.State()), old(State()), fd, path, ver, data)
    {
      hide FileServer.Push;
      var next := Shared(path, ver + 1);
      var was := FileOf(cache.disk, next);
      cache.disk := cache.disk[next := was];
      ghost var st := old(cache.State());
      var ok := PushChunks(path, data, next);
      if !ok {
        assert cache.disk == st.disk[next := WriteAt(was, 0, Zeros(|ChunkAt(data, 0)|))];
        return Thrown;
      }
      cache.currSize := Int32(cache.currSize + |data| - |was|);
      assert cache.disk == st.disk[next := Overlay(was, data)];
      cache.RemoveWriter(Private(path, ver, fd));
      sessions := sessions - {fd};
      reply := Done;
    }

    method CloseWriter(fd: nat) returns (reply: Reply)
      requires Valid() && fd in sessions && sessions[fd].Writer?
      modifies this, stub, cache
      ensures Valid()
      ensures Outcome(stub.State(), State(), reply) ==
        Spec.CloseWriter(old(stub.State()), old(State()), cache.maxSize, fd,
                         old(sessions)[fd].path, old(sessions)[fd].ver)
    {
      hide Spec.Deliver;
      hide Spec.Reserve;
      var Writer(path, ver, _) := sessions[fd];
      var mine := Private(path, ver, fd);
      if mine !in cache.disk { return Failed(ENOENT); }
      var data := cache.disk[mine];
      var ok := Reserve(Shared(path, ver + 1));
      if !ok { return Thrown; }
      reply := Deliver(fd, path, ver, data);
    }

    method Close(fd: nat) returns (reply: Reply)
      requires Valid()
      modifies this, stub, cache
      ensures Valid()
      ensures Outcome(stub.State(), State(), reply) ==
        Spec.Close(old(stub.State()), old(State()), cache.maxSize, fd)
    {
      if fd !in sessions {
        reply := Thrown;
      } else if sessions[fd].Reader? {
        reply := CloseReader(fd);
      } else {
        reply := CloseWriter(fd);
      }
    }

    method Write(fd: nat, buf: Content) returns (reply: Reply)
      requires Valid()
      modifies this, cache`disk
      ensures Valid()
      ensures (State(), reply) == Spec.Write(old(State()), fd, buf)
    {
      if fd !in sessions || sessions[fd].Reader? || KeyOf(sessions[fd], fd) !in cache.disk {
        return Failed(EBADF);
      }
      var s := sessions[fd];
      var k := KeyOf(s, fd);
      cache.disk := cache.disk[k := WriteAt(cache.disk[k], s.pos, buf)];
      sessions := sessions[fd := Writer(s.path, s.ver, s.pos + |buf|)];
      reply := Count(|buf|);
    }

    method Read(fd: nat, n: nat) returns (reply: Reply)
      requires Valid()
      modifies this
      ensures Valid()
      ensures (State(), reply) == Spec.Read(old(State()), fd, n)
    {
      if fd !in sessions { return Failed(EBADF); }
      var s := sessions[fd];
      var k := KeyOf(s, fd);
      if k !in cache.disk { return Failed(ENOENT); }
      var bytes := Slice(cache.disk[k], s.pos, n);
      sessions := sessions[fd := s.(pos := s.pos + |bytes|)];
      reply := Data(bytes);
    }

    method Lseek(fd: nat, offset: int, whence: Whence) returns (reply: Reply)
      requires Valid()
      modifies this
      ensures Valid()
      ensures (State(), reply) == Spec.Lseek(old(State()), fd, offset, whence)
    {
      if fd !in sessions { return Failed(EBADF); }
      var s := sessions[fd];
      if KeyOf(s, fd) !in cache.disk { return Failed(EBADF); }
      var newPos := offset;
      match whence {
        case FROM_CURRENT => newPos := s.pos + offset;
        case FROM_END => newPos := |cache.disk[KeyOf(s, fd)]| + offset;
        case FROM_START =>
      }
      if newPos < 0 { return Failed(EINVAL); }
      sessions := sessions[fd := s.(pos := newPos)];
      reply := Count(newPos);
    }

    method Unlink(path: string) returns (reply: Reply)
      modifies stub`files
      ensures (stub.State(), reply) == Spec.Unlink(old(stub.State()), path)
    {
      var success := stub.DeleteFile(path);
      reply := if success != 0 then Failed(ENOENT) else Done;
    }
  }
}
