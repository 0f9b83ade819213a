# Verified model of three distributed-systems assignments

This project models the three protocols of the repository and proves what they
keep over whole runs.

**The versioned caching proxy (15440-p2).** Any number of proxies share one file
server. The server keeps bytes and a version per file (`FileServer`); a proxy
caches `path-version` files, gives every write descriptor a private copy, and on
close pushes that copy back in chunks (`Proxy`, `ProxySpec`); the cache itself is
an access-ordered map with client counts, a byte budget, stale removal and LRU
eviction (`Cache`, `CacheSpec`); entries go by printed names, and the stale test
works on these names (`CacheKeys`). `Coherence` and `Pins` prove properties of
every run of any number of proxies, `Sessions` what users see through
descriptors, `Recency` that each cache is in the order of last use, `Civil` what
holds besides when no path is a prefix of another, `Replies` what every call answers
and which file an open shows. `Departures` says exactly which calls break coherence;
`Witnesses` and `Overwrites` have the runs in which things go wrong.

**Two-phase commit of collages (15440-p4).** Coordinators (`Coordinator`) and user
nodes (`UserNode`) exchange messages (`Messages`) over a network that is a multiset of
packets: it reorders and may lose, but does not duplicate. All coordinators share
one inbox and send one another's replies again. `CommitProtocol` is the state
machine and its invariant; `CommitTheorems` has agreement and conservation,
`Exclusion` the locks and which image can be used twice, `Progress` termination
and the outcome, `Rivals` the run in which three transactions end up with one
image in two collages.

**Directory trees and requests on the wire (15440-p1).** `Wire` has the integers,
C strings and buffers, `DirTree` the printer and the parser of a tree, `Rpc` the
packing of requests by the client and their reading by the server, `Streams` both
over a byte stream that arrives in arbitrary fragments, `Layouts` the messages byte
by byte, at their offsets and with their numbers.

Each class is the source's object with the source's loops. Its methods are proved
equal to functions on values, and the theorems are about those functions. A file
is a sequence of bytes; the cache directory is the map `disk` from entries to
files; a user's consent, the order of messages, the padding inside C structs and
the fragments of a stream are arbitrary.

Where the code and its intention differ, the model does what the code does:

- one close raises the version once per chunk, not once (`FileServer.WriteBack`);
- closing an empty private copy raises only the proxy's own version. It breaks
  coherence unless the entry it installs is older than the server's version, or is
  that version with the same bytes (`Coherence.EmptyCloseIsTheException`, with the
  run `Witnesses.EmptyCloseServesNothing`);
- `updateFile` fails for a file without a version entry, after its bytes were
  written (`FileServer.WriteBackNeedsAnEntry`). A close that meets this leaves zeros
  cached as the next version, and breaks coherence but for a descriptor opened while
  the server lacked the file, under an exact condition (`Departures.NoEntryCloseKeepsIff`,
  with the run `Witnesses.CloseWithoutEntryServesZeros`);
- `unlink` keeps the version entry, so a proxy can serve the bytes of a deleted
  file (`Witnesses.UnlinkServesOldBytes`); it is harmless if and only if no proxy
  has bytes in a shared file of the file's version or a later one
  (`Departures.UnlinkKeepsIff`, `Witnesses.UnlinkOfUnheldFile`);
- these three are the only calls that break coherence (`Departures.StepKeepsIff`);
- the stale test is a bare prefix test on names: exact on paths none of which is a
  prefix of another (`CacheKeys.StaleTestIsExact`). For any entry of another path it
  is right if and only if the path is no prefix of the entry's name or the rest of
  the name excuses it (`CacheKeys.StaleTestIsRightIff`); what it does with the entries
  of longer and of shorter paths follows in four lemmas. On the right entries it
  also removes newer versions than the one asked about;
- `write` lengthens a private copy without charging the cache, and a close that
  installs an entry over a file that has bytes charges too much (`Pins.RunsBalance`,
  `Civil.RechargeOnlyForOldEntries`, with the run
  `Overwrites.InstalledAgainIsChargedAgain`);
- a close installs the next version over a file that readers may have open
  (`Pins.CloseChangesSnapshotIff`, with the run `Overwrites.SnapshotIsOverwritten`);
- an open of a file the server does not have looks for its bare path in the cache
  and succeeds on an entry of another path that is spelled so
  (`Coherence.OpensServeCurrentBytes`, `Witnesses.AbsentPathServesAnotherFile`);
- a decision unlocks its images whoever locked them
  (`Exclusion.DecisionIsSafeIff`, `Exclusion.HeldLockedIff`, `Rivals.ThreeRivalsShare`).

The hypotheses of the run theorems. Pins, accounting, snapshots and the cache order:
none; they hold over every run from an empty start, with unlinks, exceptions and any
paths. Coherence: `Coherence.Orderly` (no unlink; a write descriptor is closed with a
version entry on the server and a private copy that is not empty), and exactly which
runs stay coherent in `Departures.RunStaysCoherentIff`. The plain form of the
accounting, and that nothing is raised: `Civil.Civil` (no unlink; the paths opened are
prefix-free; a write descriptor with something to send is closed with a version
entry). The commit: collages with distinct names, and `lost` false where a theorem
needs a network without losses.

A system is coherent (`Coherence.SystemCoherent`) when no cached version is ahead of
the version the server has for the file, or would give it if it were made now, and a
cached copy of that version holds the server's bytes; besides, a shared file of that
or a later version, cached or not, is no longer than the server's, and a private copy
of that version no shorter.

## Model

| member | source | states |
|---|---|---|
| Coherence.RunsAreCoherent | 15440-p2/handin/Proxy.java:63-491 | after every orderly run of any number of proxies no cached version exceeds the server's, and a cached copy of the server's version holds the server's bytes |
| Coherence.OpensServeCurrentBytes | 15440-p2/handin/Proxy.java:63-406 | after every orderly run an open, in any mode, sees the server's current bytes if and only if the server has the file, or no cached entry is spelled like its path, or it gets an empty private copy of such an entry; in that last family it succeeds in every mode but CREATE_NEW |
| Coherence.CloseWritesBack | 15440-p2/handin/Proxy.java:445-486 | after every orderly run a completed write close leaves the server with the private copy over its old bytes, exactly the private copy if no close came between, and raises the version by one per chunk |
| Coherence.EmptyCloseIsTheException | 15440-p2/handin/Proxy.java:445-486 | for descriptors of every version: a write close, with a version entry if it has anything to send, keeps coherence if and only if it installs no empty copy or the entry it installs is older than the server's or agrees with it |
| Coherence.StepCoherent | 15440-p2/handin/Proxy.java:63-665 | one call at one proxy keeps every proxy coherent with the server |
| Coherence.OpenCoherent | 15440-p2/handin/Proxy.java:63-406 | an open keeps coherence and changes no version and no bytes on the server, and under a stated condition serves current bytes |
| Coherence.CloseReaderCoherent | 15440-p2/handin/Proxy.java:420-427 | closing a read descriptor keeps coherence |
| Coherence.CloseWriterCoherent | 15440-p2/handin/Proxy.java:429-486 | closing a write descriptor whose copy is not empty keeps coherence and advances the server, whether or not it completes |
| Coherence.WriteCoherent | 15440-p2/handin/Proxy.java:501-534 | writing into a private copy keeps coherence |
| Departures.StepKeepsIff | 15440-p2/handin/Proxy.java:63-665 | one call at one proxy keeps a coherent system coherent if and only if it is safe, for every call: only write closes of empty copies, write closes without a version entry and unlinks can be unsafe |
| Departures.RunStaysCoherentIff | 15440-p2/handin/Proxy.java:63-665 | a run from the start is coherent throughout if and only if each of its calls is safe where it happens |
| Departures.NoEntryCloseKeepsIff | 15440-p2/handin/Proxy.java:459-477 | a close that pushes without a version entry ends in an exception, and keeps its proxy coherent if and only if its descriptor was opened while the server lacked the file, the zeros left locally agree with what was written, and no private copy there falls short of it |
| Departures.WithstandsIff | 15440-p2/handin/Server.java:90-103 | another proxy stays coherent after such a push if and only if its cached copy of version 1 is the new file and its private copies are no shorter |
| Departures.UnlinkKeepsIff | 15440-p2/handin/Server.java:118-138 | unlink keeps the system coherent if and only if the file was not there, or no proxy has bytes in a shared file of its current version or a later one |
| Witnesses.EmptyCloseServesNothing | 15440-p2/handin/Proxy.java:455-486 | a run of five calls of two proxies after which an empty copy is served for a file that is not empty |
| Witnesses.CloseWithoutEntryServesZeros | 15440-p2/handin/Proxy.java:459-477 | a run of five calls after which a proxy serves zeros for another's bytes, starting with a file made, written and closed before anyone looked it up |
| Witnesses.AbsentPathServesAnotherFile | 15440-p2/handin/Proxy.java:86-98 | a read open of a path the server does not have serves the file whose entry is spelled like it |
| Witnesses.SweepMistakesAnotherPath | 15440-p2/handin/Cache.java:95-99 | two entries of a shorter path, one taken for stale and one that raises an exception |
| Sessions.LaterOpensSeeTheClose | 15440-p2/handin/Proxy.java:63-491 | over every orderly run: what a write close left in its private copy, with no other close since its open, is what every later open at any proxy and in any mode sees, as long as the version stays what that close made it |
| Sessions.RunsAdvance | 15440-p2/handin/Server.java:74-103 | in an orderly run a file's version never falls, and while it stays the bytes stay |
| Sessions.WriteReadsBack | 15440-p2/handin/Proxy.java:501-583 | bytes written, sought back to and read are the bytes written; the rest of the file is kept and a gap is zeros |
| Sessions.ReadsJoin | 15440-p2/handin/Proxy.java:544-583 | two reads in a row return what one read of both lengths returns |
| Sessions.ReadGives | 15440-p2/handin/Proxy.java:544-583 | a read gives the bytes from the position on, as many as asked for and there are, and moves the position behind them; nothing else changes |
| Sessions.WritesJoin | 15440-p2/handin/Proxy.java:526-529 | two writes in a row leave the proxy that one write of both buffers leaves, and each answers the number of its own bytes |
| Sessions.ReadAfterWrite | 15440-p2/handin/Proxy.java:526-529 | a read right after a write starts behind the bytes written |
| Sessions.SeekReplies | 15440-p2/handin/Proxy.java:611-632 | a seek from each of the three origins reaches the position asked for and answers it, or fails with no change if it is negative |
| Sessions.ReadSeekBackRead | 15440-p2/handin/Proxy.java:614-619 | after a read, seeking back from the current position by its length restores the proxy, and the same read gives the same bytes |
| Sessions.SeekFromEnd | 15440-p2/handin/Proxy.java:620-626 | from n before the end a read gives the last n bytes, from the end itself nothing |
| Sessions.SeekFailsIff | 15440-p2/handin/Proxy.java:611-632 | a seek on an open file fails with EINVAL, and keeps the position, if and only if the position asked for is negative |
| Replies.OpenReplies | 15440-p2/handin/Proxy.java:63-406 | an open, in any mode, answers the error or the next descriptor at position 0, unless an exception intervenes; an open that fails changes nothing at the proxy; the server after it, in every case |
| Replies.OpensReply | 15440-p2/handin/Proxy.java:63-406 | over every run and in every mode: READ and WRITE fail exactly when the server lacks the file and no cached entry is spelled like it, with ENOENT; CREATE never; CREATE_NEW exactly when the server has the file, an entry is spelled like it or version 1 lies in the cache directory, with EEXIST; every other open gives the next descriptor, unless it raises |
| Replies.CivilOpensReply | 15440-p2/handin/Proxy.java:63-406 | over every civil run, without exceptions: READ and WRITE fail exactly when the server lacks the file, CREATE never, CREATE_NEW exactly when the server has it or version 1 of it is cached |
| Replies.OpensShowTheirBytes | 15440-p2/handin/Proxy.java:110-165 | over every run an open that succeeds gives a descriptor on the bytes of the entry it hits, or else on the server's over what lay in the local file |
| Replies.CloseReplies | 15440-p2/handin/Proxy.java:416-491 | which closes are Done, fail and raise, which descriptors remain, and what reaches the server |
| Replies.WritersReply | 15440-p2/handin/Proxy.java:429-534 | over every run the private copy of an open write descriptor is there: its writes succeed, and its close is Done unless the reservation raises or something is to be pushed without a version entry |
| Replies.FileCallReplies | 15440-p2/handin/Proxy.java:501-641 | when read, write and seek fail and with what; a call that fails changes nothing, and one that succeeds nothing of another descriptor, another file or the cache |
| Replies.UnlinkReplies | 15440-p2/handin/Proxy.java:651-668 | unlink is Done if and only if it takes a file away from the server, and fails with ENOENT otherwise; a second one in a row fails |
| Replies.UnlinkedStaysUnlinked | 15440-p2/handin/Proxy.java:651-668 | over every run: once a path was unlinked, and with no create of it and no close of a write descriptor of it since, a read open without an entry spelled like it fails with ENOENT at every proxy, and so does another unlink |
| Witnesses.UnlinkServesOldBytes | 15440-p2/handin/Server.java:118-138 | a run of three calls after which a read open serves the bytes of a file that was unlinked and made again empty |
| Witnesses.UnlinkOfUnheldFile | 15440-p2/handin/Server.java:118-138 | a run in which a file with a version entry is unlinked and the system stays coherent, since no proxy holds it |
| Witnesses.FirstRead | 15440-p2/handin/Proxy.java:264-311 | the exact state after the first read open at a fresh proxy |
| Pins.RunsArePinSafe | 15440-p2/handin/Cache.java:42-125 | over every run each entry's client count is its open read descriptors plus one for the write descriptor that owns it, so no close meets the clamp at zero; every shared entry with a client and the private copy of every write descriptor is cached |
| Pins.OpenPins | 15440-p2/handin/Cache.java:42-82 | the entry of an open descriptor has a positive count, so its close never reaches the clamp at zero |
| Pins.RunsBalance | 15440-p2/handin/Cache.java:58-159 | over every run curr_size is, in 32-bit arithmetic, the total length of the cached files less the bytes that fetches, writes and closes have left unbilled, each by a stated amount |
| Civil.RechargeOnlyForOldEntries | 15440-p2/handin/Proxy.java:448-480 | a civil close never leaves bytes unbilled; it bills exactly right if and only if the next version's file had no bytes, or the private copy is empty and that file outlasts the reservation; else it bills too much |
| Civil.UnbilledIsLengthenedIff | 15440-p2/handin/Cache.java:58-159 | what a civil run leaves unbilled is at most what its writes have lengthened, and exactly that if and only if every write close bills exactly |
| Civil.SizeIsTotalLessLengthened | 15440-p2/handin/Cache.java:58-159 | over every civil run whose write closes bill exactly curr_size is, in 32-bit arithmetic, the total length of the cached files less the bytes by which writes have lengthened private copies |
| Pins.SnapshotsAreStable | 15440-p2/handin/Proxy.java:264-311 | over every run: while a read descriptor stays open on a shared file the file stays on disk, and its bytes never change if and only if each event leaves them |
| Pins.CloseChangesSnapshotIff | 15440-p2/handin/Proxy.java:445-477 | only the close, at the same proxy, of a write descriptor of the version before can change a held file; the file survives it if and only if it begins with what the close lays over it, the private copy if the close completes |
| Pins.SnapshotsStayWithoutOverwrite | 15440-p2/handin/Proxy.java:264-311 | over every run without such a close a read descriptor's bytes do not change |
| Pins.OpenMoves | 15440-p2/handin/Proxy.java:63-406 | an open in any mode, with any outcome, keeps the pins and every held file's bytes, and leaves unbilled what its fetch does |
| Pins.FetchMoves | 15440-p2/handin/Proxy.java:110-130 | a fetch leaves nothing unbilled for a new entry, else what the put charged for nothing |
| Pins.CloseReaderMoves | 15440-p2/handin/Proxy.java:420-427 | closing a read descriptor, even one that raises, gives back its pin only, bills exactly, and keeps every held file's bytes |
| Pins.CloseWriterMoves | 15440-p2/handin/Proxy.java:429-486 | a write close, with any outcome, keeps the pins, leaves the stated bytes unbilled, and changes no held file but the next version's, which gets the stated bytes |
| Pins.WriteMoves | 15440-p2/handin/Proxy.java:526-529 | a write keeps the pins and leaves exactly the bytes by which it lengthens the copy unbilled |
| Civil.RunsAreNeat | 15440-p2/handin/Cache.java:42-125 | over every civil run the cache directory is exactly the cached entries, read descriptors have shared files, and no private copy outlives its descriptor |
| Civil.NothingIsThrown | 15440-p2/handin/Proxy.java:63-491 | in a civil run no call raises an exception but the close of an unknown descriptor |
| Civil.NoStaleVersionStays | 15440-p2/handin/Cache.java:148-159 | over every civil run: right after a fetch, a completed write close or the close of a read descriptor no other version of the path is cached or on disk at that proxy, but those that descriptors hold |
| Overwrites.SnapshotIsOverwritten | 15440-p2/handin/Proxy.java:445-477 | a run of seven calls in which the bytes an open read descriptor sees change from [1] to [2] |
| Overwrites.InstalledAgainIsChargedAgain | 15440-p2/handin/Proxy.java:448-480 | the same run leaves curr_size one byte above the total less the bytes lengthened |
| CacheSpec.EvictIsLru | 15440-p2/handin/Cache.java:114-125 | eviction removes exactly the unpinned entries of the shortest prefix in access order that brings the cache within its budget; if none does, all that is left is pinned |
| Recency.EvictsTheLongestUnused | 15440-p2/handin/Cache.java:114-125 | over every sequence of cache operations: what the next eviction removes was last used before every unpinned entry it leaves |
| Recency.RunKeepsRecency | 15440-p2/handin/Cache.java:29-33 | the order of the map is the order of last use, over every sequence of gets, puts, pins, releases, sweeps and file changes |
| Recency.ProxiesRunOps | 15440-p2/handin/Proxy.java:63-491 | after every run of any number of proxies each cache is what the listed cache operations of its calls make of the empty one |
| Recency.ProxiesEvictTheLongestUnused | 15440-p2/handin/Cache.java:114-125 | so at every proxy, after every run, eviction takes entries last used before every unpinned entry it leaves |
| Recency.OpenUses | 15440-p2/handin/Proxy.java:98-146 | an open that succeeds makes its entry the most recent; the shared entry that a write open hits comes right before the private copy |
| Recency.CloseReaderUses | 15440-p2/handin/Proxy.java:420-427 | the close of a read descriptor makes its entry, if it stays cached, the most recent |
| Recency.CloseWriterUses | 15440-p2/handin/Proxy.java:445-486 | a write close that completes leaves the version it makes the most recent |
| CacheSpec.Cut | 15440-p2/handin/Cache.java:114-125 | where that prefix ends: the first length at which the cache fits |
| CacheSpec.StaleRemovalIsExact | 15440-p2/handin/Cache.java:89-108 | on prefix-free paths checkStaleVersions removes precisely the unpinned shared entries of the same path with another version, keeps the others in order, lowers the size by exactly their lengths, and raises nothing |
| CacheSpec.StaleRemovalIsExactIff | 15440-p2/handin/Cache.java:89-108 | for any cache: checkStaleVersions removes precisely those entries and raises nothing if and only if the test is right for every entry but pinned ones that it calls stale |
| CacheSpec.SweepRemoves | 15440-p2/handin/Cache.java:92-107 | for any outcome of the textual test the loop removes the unpinned stale entries, all of them unless a name does not parse, which is exactly when it raises |
| CacheSpec.PutBudget | 15440-p2/handin/Cache.java:148-159 | put of a new entry ends within the budget or with every other entry pinned |
| CacheSpec.PutKeeps | 15440-p2/handin/Cache.java:148-159 | put removes only unpinned entries, changes no file it keeps, and moves the size by the lengths removed and the charge |
| CacheSpec.PutIsExact | 15440-p2/handin/Cache.java:148-159 | a put that completes removes every unpinned entry the test calls stale, whatever the budget, then the unpinned entries of the shortest prefix that makes the rest fit, and nothing else; the entry put is the most recent |
| CacheSpec.PutLeavesNothingStale | 15440-p2/handin/Cache.java:153-155 | no unpinned entry that the test calls stale is left by a put, nor its file; if the cache fits without these, nothing else is removed |
| CacheSpec.PutLeavesNoOtherVersion | 15440-p2/handin/Cache.java:153-155 | on prefix-free paths a put completes and leaves no unpinned entry, and no file of one, of another version of the path |
| CacheSpec.RemovalKeeps | 15440-p2/handin/Cache.java:100-103 | removing entries keeps the order, counts and contents of the others and lowers the size by their lengths |
| CacheKeys.SplitRecovers | 15440-p2/handin/Proxy.java:429-434 | splitting a read key at its last dash gives back path and version, whatever dashes and digits the path has |
| CacheKeys.RenderInjective | 15440-p2/handin/Proxy.java:86-91 | different entries have different names; no read key is spelled like a private copy |
| CacheKeys.SplitPrivate | 15440-p2/handin/Proxy.java:361-362 | the name of a private copy, split at its last dash, gives the shared name and the descriptor |
| CacheKeys.ParseIntReads | 15440-p2/handin/Cache.java:91-98 | the value of digits with and without a sign, and that everything else is rejected |
| CacheKeys.StaleTestIsExact | 15440-p2/handin/Cache.java:95-99 | on prefix-free paths the textual test singles out exactly the other versions of the path and never raises |
| CacheKeys.StaleTestIsRightIff | 15440-p2/handin/Cache.java:95-99 | for every path, version and entry: the test is right if and only if the entry is of that path, or the path is no prefix of its name, or what stands one character behind has a w or is the version |
| CacheKeys.LongerPathTest | 15440-p2/handin/Cache.java:95-99 | a shared entry of a longer path: left alone when it has a w in the right place, else taken for stale when one character longer (but for version zero), else an exception |
| CacheKeys.LongerPrivateTest | 15440-p2/handin/Cache.java:95-99 | a private copy of a longer path is always left alone |
| CacheKeys.ShorterPathTest | 15440-p2/handin/Cache.java:95-99 | a shared entry of a shorter path whose name begins with the path: its last digits are read for its version, and an exception is raised if none are left |
| CacheKeys.ShorterPrivateTest | 15440-p2/handin/Cache.java:95-99 | a private copy of a shorter path: left alone until its w is used up, then the last digits of its descriptor are read for a version |
| CacheKeys.NoPathSpellsAKey | 15440-p2/handin/Proxy.java:86-98 | on prefix-free paths no path is spelled like a cached entry |
| FileServer.WriteBack | 15440-p2/handin/Server.java:74-103 | the chunks of one close overlay the private copy on the server's file, raise its version by the number of chunks, the least that holds the copy in pieces of 50000 bytes, and change nothing else |
| FileServer.WriteBackNeedsAnEntry | 15440-p2/handin/Server.java:101-103 | the push succeeds if and only if the file has a version entry; otherwise only its first chunk is written |
| FileServer.Server.CreateFile | 15440-p2/handin/Server.java:43-64 | an absent file appears empty, versions do not change |
| FileServer.Server.UpdateFile | 15440-p2/handin/Server.java:74-109 | the bytes are written at their position, the version goes up by one, or the call fails for want of an entry |
| FileServer.Server.DeleteFile | 15440-p2/handin/Server.java:118-138 | the file goes, its version entry stays |
| FileServer.Server.GetFileLength | 15440-p2/handin/Server.java:147-165 | the length of the file, created if absent |
| FileServer.Server.GetFileInfo | 15440-p2/handin/Server.java:177-210 | at most one chunk from a position on; nothing for an absent file or a negative position; an exception behind the end, unless the narrowed length is positive |
| FileServer.Server.GetMaxVersion | 15440-p2/handin/Server.java:220-235 | the version, recorded as one if there is none |
| FileServer.Server.ServerExists | 15440-p2/handin/Server.java:245-265 | zero for an absent file, else its version |
| ProxyCache.Cache.Put | 15440-p2/handin/Cache.java:148-159 | the method does what CacheSpec says of put: charge, stale removal, eviction, most recent |
| ProxyCache.Cache.CheckEvict | 15440-p2/handin/Cache.java:114-125 | the iterator loop does what EvictIsLru characterizes |
| ProxyCache.Cache.CheckStaleVersions | 15440-p2/handin/Cache.java:89-108 | the iterator loop does what SweepRemoves characterizes, or fails on a name without a version |
| ProxyCache.Cache.AddClient | 15440-p2/handin/Cache.java:42-47 | one more client of one entry |
| ProxyCache.Cache.RemoveWriter | 15440-p2/handin/Cache.java:58-82 | the private copy leaves cache and disk |
| ProxyCache.Cache.RemoveReader | 15440-p2/handin/Cache.java:58-82 | one client less, then stale removal |
| Proxy.FileHandler.Open | 15440-p2/handin/Proxy.java:63-406 | the four modes with their chunk loops leave server and proxy in the state of the specification, with its reply |
| Proxy.FileHandler.Close | 15440-p2/handin/Proxy.java:416-491 | both kinds of close, with all their ways to fail, do what the specification says to server and proxy |
| Proxy.FileHandler.PushChunks | 15440-p2/handin/Proxy.java:459-477 | the loop leaves the server as WriteBack says and the local copy overlaid, or stops after the first chunk |
| Proxy.FileHandler.CopyFromServer | 15440-p2/handin/Proxy.java:121-129 | the chunk loop overlays the server's bytes on the local file and leaves the server alone |
| Proxy.FileHandler.CopyLocally | 15440-p2/handin/Proxy.java:147-165 | the chunk loop overlays one local file on another |
| Proxy.FileHandler.Write | 15440-p2/handin/Proxy.java:501-534 | the bytes go to the descriptor's position in the private copy |
| Proxy.FileHandler.Read | 15440-p2/handin/Proxy.java:544-583 | the bytes from the descriptor's position on, which moves by their number |
| Proxy.FileHandler.Lseek | 15440-p2/handin/Proxy.java:593-641 | the new position, or an error for one before the start |
| Proxy.FileHandler.Unlink | 15440-p2/handin/Proxy.java:651-663 | the file goes from the server only |
| CommitTheorems.CommitIsAtomic | 15440-p4/handin/Server.java:79-123 | in every run, with losses or not: a collage is written exactly for the transactions decided with a yes from every source node, with the image proposed; an abort has a no; every DECISION in flight says which |
| CommitTheorems.DecisionsAgree | 15440-p4/handin/Server.java:102-111 | two decisions about one collage, in flight at any two times of a run, carry the same value |
| CommitTheorems.DecisionIsUnanimous | 15440-p4/handin/Server.java:79-95 | a decision is commit if and only if all nodes answered yes, abort if and only if one answered no |
| CommitTheorems.VotesBounded | 15440-p4/handin/Server.java:83-100 | never more votes than nodes; a decision has them all |
| CommitTheorems.RepliesAreConserved | 15440-p4/handin/Server.java:80-100 | without losses exactly the nodes that have not answered have a PREPARE in flight; they, the replies in flight and the votes add up to the nodes; nothing is left at the decision |
| CommitTheorems.ResendChangesNothing | 15440-p4/handin/Server.java:97-99 | sending a foreign reply again changes no count, vote, node or lock |
| CommitProtocol.NextSane | 15440-p4/handin/Server.java:54-123 | every step, of a coordinator, a node or the network, keeps the conservation laws of all transactions |
| Exclusion.NoDoubleUse | 15440-p4/handin/UserNode.java:72-138 | when no node handles the decision of a transaction it refused while another holds its image, no image is in two written collages |
| Exclusion.DoubleUseNeedsAThird | 15440-p4/handin/UserNode.java:119-132 | in every run, if two written collages share an image then its node had refused a third transaction on it and handled that one's decision |
| Exclusion.TwoNeverShare | 15440-p4/handin/UserNode.java:72-138 | two transactions alone on an image never both use it |
| Exclusion.DecisionIsSafeIff | 15440-p4/handin/UserNode.java:129-130 | handling a decision keeps every held image locked if and only if no other transaction holds an image it names |
| Exclusion.HeldLockedIff | 15440-p4/handin/UserNode.java:72-138 | over every run from the start, every held image is locked at every point if and only if no node handles the decision of a transaction it refused while another holds its image |
| Exclusion.RunsKeepExclusive | 15440-p4/handin/UserNode.java:63-144 | over every run: held images are locked unless freed, locked images are held, a node's files are its first ones less the images used, and an image never freed has one claim |
| Exclusion.CollagesHadTheirImages | 15440-p4/handin/UserNode.java:72-118 | in every run the sources of a written collage were images of their nodes when the run began |
| Rivals.ThreeRivalsShare | 15440-p4/handin/UserNode.java:119-132 | from any initial world a run of three transactions after which one image is in two written collages |
| Rivals.RequestEnds | 15440-p4/handin/Server.java:54-123 | a request for one image can run to its end at any time: to a collage if the image is there and not locked, else to an abort |
| Progress.RunsAreBounded | 15440-p4/handin/Server.java:70-111 | however messages are reordered, sent again or lost, a run without new requests has no more useful steps than a measure of its start |
| Progress.StepWorks | 15440-p4/handin/Server.java:83-111 | the measure falls with every step but a new request, a loss or a re-send, and never rises with those last two |
| Progress.NoDeadlock | 15440-p4/handin/Server.java:83-100 | without losses a useful step is enabled as long as a message is in flight or a transaction undecided |
| Progress.CanFinish | 15440-p4/handin/Server.java:70-123 | from every reachable world without losses useful steps lead to a quiet one |
| Progress.Outcome | 15440-p4/handin/UserNode.java:103-138 | at rest after a run without losses no image is locked, each node has its first files less those used by written collages, and the collages are those all nodes agreed to |
| Coordinator.HearAllCounts | 15440-p4/handin/Server.java:80-100 | the vote loop counts exactly its own replies, remembers whether all were yes, and sends everything else again |
| Coordinator.ForeignAreResent | 15440-p4/handin/Server.java:97-99 | every message about another collage is sent again unchanged, as often as it came, and none about the own one |
| Coordinator.Commit.constructor | 15440-p4/handin/Server.java:57-65 | the node set is the set of the sources' nodes |
| Coordinator.Commit.StartCommit | 15440-p4/handin/Server.java:54-123 | over any inbox: PREPARE to every node; stops at the first moment every vote is in; DECISION with the conjunction of the votes; the collage exactly if all were yes |
| Coordinator.Commit.SendAll | 15440-p4/handin/Server.java:69-77 | one message to each node |
| Coordinator.Commit.CollectVotes | 15440-p4/handin/Server.java:79-100 | the loop's tally and re-sends are those of the messages it took, and it took no more than it needed |
| UserNode.Node.DeliverMessage | 15440-p4/handin/UserNode.java:63-144 | new state and reply for each kind of message |
| UserNode.DeliverReplies | 15440-p4/handin/UserNode.java:63-144 | a PREPARE is answered to its sender, yes if and only if all the images are there, free and consented to, and then they are locked; a DECISION is not answered, deletes on commit and unlocks; nothing else has an effect |
| UserNode.Node.Vote | 15440-p4/handin/UserNode.java:72-118 | yes if and only if all the node's images exist, none is locked and the user consents; then all are locked, else none |
| UserNode.Node.ApplyDecision | 15440-p4/handin/UserNode.java:119-132 | a commit deletes the images, and either decision unlocks them whoever locked them |
| Messages.TallyBroadcast | 15440-p4/handin/Server.java:69-77 | a broadcast adds to every count the number of nodes it reaches |
| DirTree.RoundTrip | 15440-p1/interpose/mylib.c:130-159 | wherever a printed tree stands in a buffer the parser returns the tree and leaves the offset behind it |
| DirTree.PrefixFree | 15440-p1/interpose/server.c:150-182 | a printed tree that is a prefix of another is the same tree |
| DirTree.DecodeAnyNode | 15440-p1/interpose/mylib.c:130-159 | any node with a terminated name, whoever wrote it: the name ends at its first NUL, and a count that is not positive means no subdirectories |
| DirTree.DecodeGivesUp | 15440-p1/interpose/mylib.c:134-145 | where the source would read outside the buffer, or find no end of a name, the model gives up |
| DirTree.EncodedLength | 15440-p1/interpose/server.c:150-155 | the printed length is nine bytes and the name for every node |
| DirTree.SerializeDirtree | 15440-p1/interpose/server.c:150-182 | the recursive printer extends its growing buffer by the preorder encoding of the tree |
| DirTree.AddNode | 15440-p1/interpose/server.c:151-171 | a node's own part is added, the buffer before it is kept |
| DirTree.DeserializeTree | 15440-p1/interpose/mylib.c:130-159 | the recursive parser builds fresh nodes holding the tree that Decode reads and advances the shared offset behind it |
| DirTree.ReadNode | 15440-p1/interpose/mylib.c:134-147 | the name and the number of subdirectories of the node at the offset |
| Streams.StreamRoundTrip | 15440-p1/interpose/server.c:203-231 | a stream of packed requests is served as exactly these requests, whatever the padding holds |
| Streams.RequestsComeFirst | 15440-p1/interpose/server.c:203-231 | packed requests in front of any other bytes are served first, and the rest as if it stood alone |
| Streams.CutOffStream | 15440-p1/interpose/server.c:203-218 | a stream that ends within a request's body: the requests before it are served, and that one is reported as cut off |
| Streams.Socket.HandleClient | 15440-p1/interpose/server.c:192-465 | for every fragmentation the requests handled are those the bytes say |
| Streams.Socket.ReceiveBody | 15440-p1/interpose/server.c:209-218 | the loop ends with exactly the next bytes of the stream, as many as announced or as many as there are |
| Streams.Socket.ReceiveTree | 15440-p1/interpose/mylib.c:705-742 | the client gets the errno and the tree the server sent, and leaves the rest of the stream |
| Streams.ReplyWithTree | 15440-p1/interpose/server.c:430-444 | the answer is errno, length and printed tree |
| Rpc.BodyRoundTrip | 15440-p1/interpose/server.c:222-450 | the handler of each request reads back what the client asked for |
| Rpc.PackOpen | 15440-p1/interpose/mylib.c:202-224 | the buffer filled piece by piece is the packed request |
| Rpc.PackClose | 15440-p1/interpose/mylib.c:264-279 | likewise, with the descriptor shifted to the server's |
| Rpc.PackRead | 15440-p1/interpose/mylib.c:317-333 | likewise |
| Rpc.PackWrite | 15440-p1/interpose/mylib.c:386-408 | likewise, with the bytes to write behind the count |
| Rpc.PackStat | 15440-p1/interpose/mylib.c:495-519 | likewise, with the caller's struct stat behind the path |
| Rpc.PackPath | 15440-p1/interpose/mylib.c:551-572 | likewise for UNLINK and, at lines 681-702, GETDIRTREE |
| Layouts.OpenLayout | 15440-p1/interpose/mylib.c:202-224 | opcode 0, the size, then path length, flags, mode and the path, at their offsets |
| Layouts.CloseLayout | 15440-p1/interpose/mylib.c:264-279 | opcode 1, the size, then the descriptor |
| Layouts.ReadLayout | 15440-p1/interpose/mylib.c:317-333 | opcode 2, the size, then descriptor, padding and count |
| Layouts.WriteLayout | 15440-p1/interpose/mylib.c:386-405 | opcode 3, the size, then descriptor, count without padding, and the bytes |
| Layouts.StatLayout | 15440-p1/interpose/mylib.c:495-519 | opcode 5, the size, then path length, path and the 144 bytes of the caller's struct |
| Layouts.PathLayout | 15440-p1/interpose/mylib.c:551-572 | opcodes 6 and 8, the size, then path length and path |
| Layouts.UnknownOpcode | 15440-p1/interpose/server.c:452-459 | every opcode without a case is answered as such, whatever its body |
| Layouts.PartOfABody | 15440-p1/interpose/server.c:222-450 | no handler takes a part of a body for the whole: the model gives up where a request's bytes are not all there |
| Layouts.PathsEnd | 15440-p1/interpose/server.c:364-430 | whatever bytes stand for a path: it ends at its first NUL, and without one it is not read |
| Layouts.NodeLayout | 15440-p1/interpose/server.c:150-182 | a printed node at its offsets, with its subdirectories right behind it in order |
| Layouts.ReplyLayout | 15440-p1/interpose/server.c:430-444 | the answer to GETDIRTREE: errno at 0, the length at 4, the tree at 8 |
| Wire.IntRoundTrip | 15440-p1/interpose/server.c:164-169 | an int copied into a buffer and out again is the same int, negative ones too |
| Layouts.DigitAt | 15440-p1/interpose/server.c:164-169 | byte i of a number in memory is its digit of weight 256 to the i |
| Layouts.SomeNumbers | 15440-p1/interpose/mylib.c:28-29 | an int, a negative int and a size byte by byte, and the constants of both programs |
| Wire.Buffer.Grow | 15440-p1/interpose/server.c:156-161 | realloc keeps the bytes so far |

## Left out

- Thread interleavings inside one call, the locks of proxy, cache and server, and the two lock regions around `put` and `addClient`: each call is one atomic step.
- RMI, sockets, the registry, `fork`, `dlsym`, environment variables, printing, Java serialization of messages.
- Directories, permissions, parent directories, path normalization, `EINVAL` and `EISDIR` replies, IOExceptions: paths are normalized and relative, names relative to the cache directory, and file operations succeed.
- Proxy.FileHandler.Write: a write to a read descriptor is modelled as `EBADF`, since no file of that name exists.
- Proxy.FileHandler.Read: a descriptor reads the file that now has its entry's name, where the source's open file would keep the bytes of a file deleted and made again; the two agree for shared files, since a held one is never deleted, and differ for a private copy that another descriptor opened by its name.
- CacheKeys.ReadTestIsExact: the model of close keeps the kind of a descriptor instead of telling it from the remembered name; this lemma says when the source's test agrees.
- Version numbers are unbounded, so their overflow and the range check of `parseInt` are not modelled; `curr_size` does wrap around at 32 bits.
- `unlink` in the orderly and civil runs, where the code does not keep the properties; which unlinks do no harm is said exactly, and the other run theorems about proxies include it.
- Two transactions with one collage name, messages delivered twice, a user node called Server, and sources without a colon; sources are split already.
- New image files at a node during a run.
- Streams.Socket.HandleClient: headers arrive whole, sizes fit an int, and `recv` reports no error; a body that is cut off is reported as such, while the source goes on with what it has.
- Streams.Socket.ReceiveTree: requires that the server's whole answer is in the stream; at an early end the source would not terminate.
- Rpc.BodyRoundTrip: LSEEK and GETDIRENTRIES are not read, FREEDIRTREE is never sent; the calls behind the requests and the other answers are not modelled.
- DirTree.SerializeDirtree: a failing `realloc` and a node whose `num_subdirs` differs from its array are not modelled; DirTree.Decode is undefined (`Bad`) where the source would read outside its buffer.
- The autoscaler of 15440-p3, sample and test programs, `VersionData`, generated documentation.
