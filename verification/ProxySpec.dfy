/** What one call of open, close, read, write, lseek or unlink at a proxy does
    to the server and to the proxy, as functions on values. */
module ProxySpec {
  import opened Options
  import opened Bytes
  import opened CacheKeys
  import opened CacheSpec
  import opened FileServer

  /** What Proxy.java remembers about a descriptor: fd_paths and the position of
      fd_files. */
  datatype Session =
    | Reader(key: Key, pos: nat)
    | Writer(path: string, ver: nat, pos: nat)

  datatype ProxyState = ProxyState(store: Store, sessions: map<nat, Session>, nextFd: nat)

  datatype OpenMode = CREATE | CREATE_NEW | READ | WRITE
  datatype Whence = FROM_CURRENT | FROM_END | FROM_START
  datatype Errno = EEXIST | ENOENT | EBADF | EINVAL

  /** Thrown is an unchecked exception that leaves the call. */
  datatype Reply = Opened(fd: nat) | Done | Count(n: int) | Data(bytes: Content) | Failed(errno: Errno) | Thrown

  datatype Outcome = Outcome(server: ServerState, proxy: ProxyState, reply: Reply)

  function FileOf(disk: map<Key, Content>, k: Key): Content {
    if k in disk then disk[k] else []
  }

  function KeyOf(s: Session, fd: nat): Key {
    match s
    case Reader(k, _) => k
    case Writer(p, v, _) => Private(p, v, fd)
  }

  /** An entry whose printed name is `name`. */
  function Spelled(order: seq<Key>, name: string): (r: Option<Key>)
    ensures r.Some? ==> r.value in order && Render(r.value) == name
    ensures r.None? ==> forall k :: k in order ==> Render(k) != name
  {
    if order == [] then None
    else if Render(order[0]) == name then Some(order[0])
    else Spelled(order[1..], name)
  }

  /** cache.containsKey(cache_path): for an absent file cache_path carries no
      version, so it hits an entry that happens to be spelled like it
      (Proxy.java:86-98). */
  function Hit(order: seq<Key>, path: string, ver: nat): (r: Option<Key>)
    ensures r.Some? ==> r.value in order
  {
    if ver == 0 then Spelled(order, path)
    else if Shared(path, ver) in order then Some(Shared(path, ver))
    else None
  }

  /** Copy the server's bytes over the local file, then put it in the cache. */
  function Fetch(st: Store, max: int, k: Key, bytes: Content): Swept {
    Put(st.(disk := st.disk[k := Overlay(FileOf(st.disk, k), bytes)]), max, k)
  }

  function GrantReader(px: ProxyState, k: Key): ProxyState {
    ProxyState(AddClient(px.store, k), px.sessions[px.nextFd := Reader(k, 0)], px.nextFd + 1)
  }

  /** Make the private copy of a write descriptor from `base`. */
  function GrantWriter(px: ProxyState, max: int, path: string, ver: nat, base: Content): ProxyState {
    var k := Private(path, ver, px.nextFd);
    var st := px.store.(disk := px.store.disk[k := Overlay(FileOf(px.store.disk, k), base)]);
    ProxyState(AddClient(Put(st, max, k).store, k), px.sessions[px.nextFd := Writer(path, ver, 0)], px.nextFd + 1)
  }

  function FetchThenWrite(sv: ServerState, px: ProxyState, max: int, path: string, ver: nat): Outcome {
    var k := Shared(path, ver);
    var base := Overlay(FileOf(px.store.disk, k), FileBytes(sv, path));
    var r := Fetch(px.store, max, k, FileBytes(sv, path));
    if !r.ok then Outcome(sv, px.(store := r.store), Thrown)
    else Outcome(sv, GrantWriter(px.(store := r.store), max, path, ver, base), Opened(px.nextFd))
  }

  function Open(sv: ServerState, px: ProxyState, max: int, path: string, mode: OpenMode): Outcome {
    var ver := Ver(sv, path);
    var told := Lookup(sv, path);
    var hit := Hit(px.store.order, path, ver);
    match mode
    case CREATE =>
      if hit.Some? then
        Outcome(told, GrantWriter(px.(store := Touch(px.store, hit.value)), max, path, ver,
          FileOf(px.store.disk, hit.value)), Opened(px.nextFd))
      else if ver == 0 then FetchThenWrite(Create(told, path), px, max, path, 1)
      else FetchThenWrite(told, px, max, path, ver)
    case CREATE_NEW =>
      if hit.Some? || ver != 0 || Shared(path, 1) in px.store.disk then Outcome(told, px, Failed(EEXIST))
      else FetchThenWrite(Create(told, path), px, max, path, 1)
    case READ =>
      if hit.Some? then
        Outcome(told, GrantReader(px.(store := Touch(px.store, hit.value)), hit.value), Opened(px.nextFd))
      else if ver == 0 then Outcome(told, px, Failed(ENOENT))
      else
        var r := Fetch(px.store, max, Shared(path, ver), FileBytes(told, path));
        if !r.ok then Outcome(told, px.(store := r.store), Thrown)
        else Outcome(told, GrantReader(px.(store := r.store), Shared(path, ver)), Opened(px.nextFd))
    case WRITE =>
      if hit.Some? then
        Outcome(told, GrantWriter(px.(store := Touch(px.store, hit.value)), max, path, ver,
          FileOf(px.store.disk, hit.value)), Opened(px.nextFd))
      else if ver == 0 then Outcome(told, px, Failed(ENOENT))
      else FetchThenWrite(told, px, max, path, ver)
  }

  function CloseReader(px: ProxyState, fd: nat, k: Key): (r: (ProxyState, Reply)) {
    var rest := px.(sessions := px.sessions - {fd});
    var once := RemoveReader(Touch(px.store, k), k);
    if !once.ok then (rest.(store := once.store), Thrown)
    else
      var twice := CheckStale(once.store, k);
      (rest.(store := twice.store), if twice.ok then Done else Thrown)
  }

  /** Make room for version v+1 in the cache: the first half of a write close
      (Proxy.java:449-452). */
  function Reserve(st: Store, max: int, k: Key): Swept {
    var made := st.(disk := st.disk[k := FileOf(st.disk, k)]);
    var once := CheckStale(made, k);
    if !once.ok then once else Put(once.store, max, k)
  }

  /** The second half: push the private copy to the server and into the local
      copy of the next version, then drop the private copy (Proxy.java:453-486). */
  function Deliver(sv: ServerState, px: ProxyState, fd: nat, path: string, ver: nat, data: Content): Outcome {
    var mine, next := Private(path, ver, fd), Shared(path, ver + 1);
    var st := px.store;
    var was := FileOf(st.disk, next);
    var u := Push(sv, path, data, 0);
    if !u.ok then
      Outcome(u.server, px.(store := st.(disk := st.disk[next := WriteAt(was, 0, Zeros(|ChunkAt(data, 0)|))])), Thrown)
    else
      var filled := st.(disk := st.disk[next := Overlay(was, data)], size := Int32(st.size + |data| - |was|));
      Outcome(u.server, ProxyState(RemoveWriter(filled, mine), px.sessions - {fd}, px.nextFd), Done)
  }

  function CloseWriter(sv: ServerState, px: ProxyState, max: int, fd: nat, path: string, ver: nat): Outcome {
    var mine := Private(path, ver, fd);
    if mine !in px.store.disk then Outcome(sv, px, Failed(ENOENT))
    else
      var r := Reserve(px.store, max, Shared(path, ver + 1));
      if !r.ok then Outcome(sv, px.(store := r.store), Thrown)
      else Deliver(sv, px.(store := r.store), fd, path, ver, px.store.disk[mine])
  }

  function Close(sv: ServerState, px: ProxyState, max: int, fd: nat): Outcome {
    if fd !in px.sessions then Outcome(sv, px, Thrown)
    else match px.sessions[fd]
      case Reader(k, _) =>
        var (px', reply) := CloseReader(px, fd, k);
        Outcome(sv, px', reply)
      case Writer(p, v, _) => CloseWriter(sv, px, max, fd, p, v)
  }

  function Write(px: ProxyState, fd: nat, buf: Content): (ProxyState, Reply) {
    if fd !in px.sessions || px.sessions[fd].Reader? || KeyOf(px.sessions[fd], fd) !in px.store.disk then
      (px, Failed(EBADF))
    else
      var s, k := px.sessions[fd], KeyOf(px.sessions[fd], fd);
      var file := WriteAt(px.store.disk[k], s.pos, buf);
      (px.(store := px.store.(disk := px.store.disk[k := file]),
           sessions := px.sessions[fd := Writer(s.path, s.ver, s.pos + |buf|)]), Count(|buf|))
  }

  /** The bytes a read of up to n bytes at pos returns. */
  function Slice(file: Content, pos: nat, n: nat): Content {
    if pos >= |file| then [] else if |file| - pos > n then file[pos..pos + n] else file[pos..]
  }

  function Read(px: ProxyState, fd: nat, n: nat): (ProxyState, Reply) {
    if fd !in px.sessions then (px, Failed(EBADF))
    else
      var s, k := px.sessions[fd], KeyOf(px.sessions[fd], fd);
      if k !in px.store.disk then (px, Failed(ENOENT))
      else
        var bytes := Slice(px.store.disk[k], s.pos, n);
        (px.(sessions := px.sessions[fd := s.(pos := s.pos + |bytes|)]), Data(bytes))
  }

  function Lseek(px: ProxyState, fd: nat, offset: int, whence: Whence): (ProxyState, Reply) {
    if fd !in px.sessions || KeyOf(px.sessions[fd], fd) !in px.store.disk then (px, Failed(EBADF))
    else
      var s := px.sessions[fd];
      var origin := match whence
        case FROM_CURRENT => s.pos
        case FROM_END => |px.store.disk[KeyOf(s, fd)]|
        case FROM_START => 0;
      if origin + offset < 0 then (px, Failed(EINVAL))
      else (px.(sessions := px.sessions[fd := s.(pos := origin + offset)]), Count(origin + offset))
  }

  function Unlink(sv: ServerState, path: string): (ServerState, Reply) {
    (Delete(sv, path), if path in sv.files then Done else Failed(ENOENT))
  }
}
