/**
 One directory tree as the atomic installer sees it: names bound to objects, objects with
 content and generation metadata, and everything other processes may do between two steps.

 SHA-256 is a constructor, so two contents with one digest are equal.
 */
module FileSystem {
  import opened Wrappers

  type Byte = b: int | 0 <= b < 256
  type Bytes = seq<Byte>
  type Id = nat   // (st_dev, st_ino), or the Windows volume/file index
  type Dir = nat  // a directory object, as opposed to a pathname that may lead to it

  datatype Digest = Sha256(of: Bytes)
  datatype Platform = Posix | Windows
  datatype File = File(bytes: Bytes, mtime: int, ctime: int, nlink: nat, regular: bool)
  datatype Entry = Entry(dir: Dir, name: string)

  datatype World = World(
    names: map<Entry, Id>,
    files: map<Id, File>,
    parent: Dir,        // the directory that the target's parent pathname leads to right now
    held: set<Id>,      // objects opened with no sharing (Windows)
    writing: set<Id>,   // objects with an open write handle
    clock: int)

  datatype Snapshot = Snapshot(id: Id, size: nat, mtime: int, ctime: int, nlink: nat)
  datatype Generation = Generation(snap: Snapshot, sha: Digest)
  datatype Stat = Absent | Irregular | Regular(snap: Snapshot)

  function Snap(id: Id, f: File): Snapshot {
    Snapshot(id, |f.bytes|, f.mtime, f.ctime, f.nlink)
  }

  /** `_path_snapshot`: no-follow, and the caller sees an irregular object as an error. */
  function StatPath(w: World, e: Entry): Stat {
    if e !in w.names || w.names[e] !in w.files then Absent
    else if !w.files[w.names[e]].regular then Irregular
    else Regular(Snap(w.names[e], w.files[w.names[e]]))
  }

  /** `_descriptor_snapshot`: only a regular file with a single link has one. */
  function StatDescriptor(w: World, id: Id): Option<Snapshot> {
    if id in w.files && w.files[id].regular && w.files[id].nlink == 1
    then Some(Snap(id, w.files[id])) else None
  }

  ghost predicate Intact(w: World, id: Id, f: File) {
    id in w.files && w.files[id] == f
  }

  /** The object has been changed since it was `f`, and its change time says so for ever. */
  ghost predicate Gone(w: World, id: Id, f: File) {
    f.ctime <= w.clock && (id in w.files ==> f.ctime < w.files[id].ctime)
  }

  ghost predicate Tracked(w: World, id: Id, f: File) {
    Intact(w, id, f) || Gone(w, id, f)
  }

  /** No change time lies in the future. */
  ghost predicate Sane(w: World) {
    forall id | id in w.files :: w.files[id].ctime <= w.clock
  }

  /** Every created or changed object carries a change time later than any handed out before. */
  ghost predicate Stamped(w: World, w': World) {
    && w.clock <= w'.clock
    && forall id | id in w'.files ::
         || (id in w.files && w'.files[id] == w.files[id])
         || w.clock < w'.files[id].ctime <= w'.clock
  }

  /** An object held with no sharing keeps its content and every name it has. */
  ghost predicate Locked(w: World, w': World, id: Id) {
    && id in w'.held
    && (id in w.files ==> id in w'.files && w'.files[id].bytes == w.files[id].bytes)
    && forall e | e in w.names && w.names[e] == id :: e in w'.names && w'.names[e] == id
  }

  /** The handles one process has open on behalf of one run. */
  datatype Handles = Handles(exclusive: set<Id>, writing: set<Id>)

  /**
   What everybody else may do between two steps of a process with the handles `mine`: anything
   at all to names, objects and the parent pathname, except that POSIX stamps every change and
   Windows honours open handles.
   */
  ghost predicate Interference(platform: Platform, w: World, w': World, mine: Handles) {
    match platform
    case Posix => Stamped(w, w')
    case Windows =>
      && (forall id | id in mine.exclusive :: Locked(w, w', id))
      && (mine.writing * w.writing <= w'.writing)
  }

  lemma TrackedIsStable(w: World, w': World, id: Id, f: File)
    requires Sane(w) && Stamped(w, w') && Tracked(w, id, f)
    ensures Sane(w') && Tracked(w', id, f)
  {
    if Intact(w, id, f) && !Intact(w', id, f) {
      assert f.ctime <= w.clock;
    }
  }

  /** A matching generation token proves that the tracked object has not been touched. */
  lemma SameSnapshotSameFile(w: World, id: Id, f: File)
    requires Tracked(w, id, f) && id in w.files && Snap(id, w.files[id]) == Snap(id, f)
    ensures w.files[id] == f
  {
  }

  /** Bytes written at `at`, as a positioned write does: zeros fill a gap. */
  function Overlay(before: Bytes, at: nat, chunk: Bytes): (r: Bytes)
    ensures |r| == if at + |chunk| > |before| then at + |chunk| else |before|
    ensures r[at..at + |chunk|] == chunk
  {
    var padded := if |before| < at then before + seq(at - |before|, _ => 0) else before;
    padded[..at] + chunk + (if at + |chunk| < |padded| then padded[at + |chunk|..] else [])
  }

  /** One `read`: short reads are allowed, an empty one only at end of file. */
  function ReadChunk(bytes: Bytes, at: nat, request: nat, n: nat): (r: Bytes)
    requires request > 0
    ensures |r| <= request
    ensures |r| == 0 <==> |bytes| <= at
    ensures r == [] || (at + |r| <= |bytes| && r == bytes[at..at + |r|])
  {
    if |bytes| <= at then []
    else
      var available := if request < |bytes| - at then request else |bytes| - at;
      var k := if 1 <= n <= available then n else available;
      bytes[at..at + k]
  }
}
