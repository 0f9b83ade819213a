/** The file server of 15440-p2 Server.java: bytes and version numbers. */
module FileServer {
  import opened Options
  import opened Bytes
  import opened CacheKeys

  datatype ServerState = ServerState(files: map<string, Content>, versions: map<string, nat>)

  /** The version an open would be told: zero for an absent file, one for a file
      without an entry (Server.java:219-232, 245-263). */
  function Ver(sv: ServerState, p: string): nat {
    if p !in sv.files then 0 else if p in sv.versions then sv.versions[p] else 1
  }

  /** The version of a file, or the one it would have if it were made now. */
  function Current(sv: ServerState, p: string): nat {
    if p in sv.versions then sv.versions[p] else 1
  }

  function FileBytes(sv: ServerState, p: string): Content {
    if p in sv.files then sv.files[p] else []
  }

  /** serverExists records the default version it answers. */
  function Lookup(sv: ServerState, p: string): ServerState {
    if p in sv.files && p !in sv.versions then sv.(versions := sv.versions[p := 1]) else sv
  }

  /** createFile, and every RandomAccessFile opened for writing, creates an
      absent file; neither touches the version. */
  function Create(sv: ServerState, p: string): ServerState {
    if p in sv.files then sv else sv.(files := sv.files[p := []])
  }

  /** `ok` is false when the call left by an unchecked exception. */
  datatype Updated = Updated(server: ServerState, ok: bool)

  /** updateFile: the bytes are written before the missing version entry is
      noticed (Server.java:90-103). */
  function Update(sv: ServerState, p: string, buf: Content, pos: nat): Updated {
    var made := Create(sv, p);
    var wrote := made.(files := made.files[p := WriteAt(made.files[p], pos, buf)]);
    if p in sv.versions then
      Updated(wrote.(versions := wrote.versions[p := wrote.versions[p] + 1]), true)
    else Updated(wrote, false)
  }

  function Delete(sv: ServerState, p: string): ServerState {
    sv.(files := sv.files - {p})
  }

  /** The calls of updateFile made by one close, from position pos on. */
  function Push(sv: ServerState, p: string, data: Content, pos: nat): Updated
    decreases |data| - pos
  {
    if pos >= |data| then Updated(sv, true)
    else
      var chunk := ChunkAt(data, pos);
      var u := Update(sv, p, chunk, pos);
      if !u.ok then u else Push(u.server, p, data, pos + |chunk|)
  }

  lemma {:induction false} PushRest(sv: ServerState, p: string, base: Content, data: Content, pos: nat)
    requires p in sv.versions && p in sv.files && pos <= |data|
    requires sv.files[p] == Overlay(base, data[..pos])
    ensures var u := Push(sv, p, data, pos);
      && u.ok
      && u.server.files == sv.files[p := Overlay(base, data)]
      && u.server.versions == sv.versions[p := sv.versions[p] + Chunks(|data| - pos)]
    decreases |data| - pos
  {
    if pos < |data| {
      var next := pos + |ChunkAt(data, pos)|;
      WriteExtendsOverlay(base, data, pos, next);
      var sv' := Update(sv, p, ChunkAt(data, pos), pos).server;
      PushRest(sv', p, base, data, next);
    } else {
      assert data[..pos] == data;
    }
  }

  /** Write-back: pushing the chunks of a private copy overlays it on the
      server's file and raises the version by one per chunk, of which there are
      as few as hold the copy; nothing else changes. */
  lemma WriteBack(sv: ServerState, p: string, data: Content)
    requires p in sv.versions && data != []
    ensures Push(sv, p, data, 0) == Updated(
      ServerState(sv.files[p := Overlay(FileBytes(sv, p), data)],
                  sv.versions[p := sv.versions[p] + Chunks(|data|)]), true)
    ensures |data| >= |FileBytes(sv, p)| ==> Overlay(FileBytes(sv, p), data) == data
    ensures |data| <= 50000 * Chunks(|data|) < |data| + 50000
  {
    ChunksCover(|data|);
    PushAll(sv, p, data);
  }

  lemma PushAll(sv: ServerState, p: string, data: Content)
    requires p in sv.versions && data != []
    ensures Push(sv, p, data, 0) == Updated(
      ServerState(sv.files[p := Overlay(FileBytes(sv, p), data)],
                  sv.versions[p := sv.versions[p] + Chunks(|data|)]), true)
  {
    hide WriteAt;
    hide Chunks;
    var made := Create(sv, p);
    assert Push(sv, p, data, 0) == Push(made, p, data, 0);
    assert Overlay(FileBytes(sv, p), data[..0]) == FileBytes(sv, p);
    PushRest(made, p, FileBytes(sv, p), data, 0);
  }

  /** Without a version entry the first chunk reaches the file, the version
      does not move, and the close ends in an exception. */
  lemma WriteBackNeedsAnEntry(sv: ServerState, p: string, data: Content)
    requires data != []
    ensures Push(sv, p, data, 0).ok <==> p in sv.versions
    ensures p !in sv.versions ==> Push(sv, p, data, 0).server == ServerState(
      sv.files[p := Overlay(FileBytes(sv, p), ChunkAt(data, 0))], sv.versions)
  {
    if p in sv.versions {
      WriteBack(sv, p, data);
    } else {
      var base, chunk := FileBytes(sv, p), ChunkAt(data, 0);
      assert WriteAt(base, 0, chunk) == Overlay(base, chunk);
      var made := Create(sv, p);
      assert made.files[p := Overlay(base, chunk)] == sv.files[p := Overlay(base, chunk)];
    }
  }

  // An empty copy is pushed without a call.
  lemma PushFailsOnBytes(sv: ServerState, p: string, data: Content)
    requires !Push(sv, p, data, 0).ok
    ensures data != []
  {
  }

  class Server {
    var files: map<string, Content>
    var maxVersions: map<string, nat>

    function State(): ServerState
      reads this
    {
      ServerState(files, maxVersions)
    }

    constructor (root: map<string, Content>)
      ensures State() == ServerState(root, map[])
    {
      files, maxVersions := root, map[];
    }

    method CreateFile(path: string)
      modifies this`files
      ensures State() == Create(old(State()), path)
    {
      if path !in files {
        files := files[path := []];
      }
    }

    method UpdateFile(path: string, buf: Content, pos: nat) returns (ok: bool)
      modifies this
      ensures Updated(State(), ok) == Update(old(State()), path, buf, pos)
    {
      CreateFile(path);
      ClearThenWrite(files[path], pos, buf);
      files := files[path := WriteAt(files[path], pos, Zeros(|buf|))];
      files := files[path := WriteAt(files[path], pos, buf)];
      if path !in maxVersions {
        return false;
      }
      var currVer := maxVersions[path];
      maxVersions := maxVersions[path := currVer + 1];
      ok := true;
    }

    method DeleteFile(path: string) returns (result: int)
      modifies this`files
      ensures State() == Delete(old(State()), path)
      ensures result == if path in old(files) then 0 else -1
    {
      result := if path in files then 0 else -1;
      files := files - {path};
    }

    method GetFileLength(path: string) returns (length: nat)
      modifies this`files
      ensures State() == Create(old(State()), path) && length == |files[path]|
    {
      CreateFile(path);
      length := |files[path]|;
    }

    /** At most one chunk from pos on. A negative position is an error of seek. A
        position behind the end makes the length of the buffer negative, which
        raises an unchecked exception (`ok` is false), unless its narrowing to an
        int happens to be positive; then nothing is read into the buffer. */
    method GetFileInfo(path: string, pos: int) returns (buf: Option<Content>, ok: bool)
      ensures ok <==> !(path in files && pos > |files[path]| && Int32(|files[path]| - pos) < 0)
      ensures path !in files || pos < 0 ==> buf == None
      ensures path in files && 0 <= pos < |files[path]| ==> buf == Some(ChunkAt(files[path], pos))
      ensures path in files && pos >= |files[path]| && ok ==> buf == Some(Zeros(Int32(|files[path]| - pos)))
    {
      ok := true;
      if path !in files {
        return None, true;
      }
      var length := |files[path]|;
      var bufSize := if length - pos > CHUNK_SIZE then CHUNK_SIZE else Int32(length - pos);
      if bufSize < 0 {
        return None, false;
      }
      if pos < 0 {
        return None, true;
      }
      if pos >= length {
        return Some(Zeros(bufSize)), true;
      }
      assert bufSize == length - pos ==> files[path][pos..pos + bufSize] == files[path][pos..];
      buf := Some(files[path][pos..pos + bufSize]);
    }

    method GetMaxVersion(path: string) returns (ver: nat)
      modifies this`maxVersions
      ensures path in maxVersions && ver == maxVersions[path] && files == old(files)
      ensures maxVersions == if path in old(maxVersions) then old(maxVersions) else old(maxVersions)[path := 1]
    {
      if path !in maxVersions {
        maxVersions := maxVersions[path := 1];
      }
      ver := maxVersions[path];
    }

    method ServerExists(path: string) returns (ver: nat)
      modifies this`maxVersions
      ensures State() == Lookup(old(State()), path) && ver == Ver(old(State()), path) == Ver(State(), path)
    {
      if path in files {
        ver := GetMaxVersion(path);
      } else {
        ver := 0;
      }
    }
  }
}
