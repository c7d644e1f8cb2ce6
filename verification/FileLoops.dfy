/**
 The loops over `read` and `write`. A process holds one descriptor; before every system call others
 may change the world, and every read or write may be short. `turns` says what they will do.
 */
module FileLoops {
  import opened FileSystem
  import opened Wrappers

  /** The world that the next system call finds, and how much it is willing to transfer. */
  datatype Turn = Turn(world: World, count: nat)

  ghost predicate Chain(w: World, turns: seq<Turn>)
    decreases |turns|
  {
    turns == [] || (Stamped(w, turns[0].world) && Chain(turns[0].world, turns[1..]))
  }

  /** Nobody touches the object. */
  ghost predicate Undisturbed(w: World, turns: seq<Turn>, id: Id) {
    id in w.files && forall t | t in turns :: Intact(t.world, id, w.files[id])
  }

  /** Nobody touches the object that the path leads to, or the path. */
  ghost predicate UndisturbedAt(w: World, turns: seq<Turn>, path: Entry) {
    && path in w.names && Undisturbed(w, turns, w.names[path])
    && forall t | t in turns :: path in t.world.names && t.world.names[path] == w.names[path]
  }

  predicate Acceptable(f: File, maxBytes: nat) {
    f.regular && f.nlink == 1 && |f.bytes| <= maxBytes
  }

  datatype Error = NotRegular | TooBig | Changed | Missing

  const CAPTURE_CHUNK: nat := 64 * 1024
  const READ_CHUNK: nat := 1024 * 1024

  function Min(a: nat, b: nat): nat {
    if a < b then a else b
  }

  class Process {
    var w: World
    var id: Id
    var offset: nat
    var turns: seq<Turn>
    ghost var reach: nat  // the furthest byte ever asked for

    constructor (world: World, turns: seq<Turn>)
      requires Sane(world) && Chain(world, turns)
      ensures Valid() && w == world && this.turns == turns && reach == 0
    {
      w, id, offset, this.turns, reach := world, 0, 0, turns, 0;
    }

    ghost predicate Valid()
      reads this
    {
      Sane(w) && Chain(w, turns)
    }

    /** Others run until the next system call. */
    method Yield() returns (count: nat)
      requires Valid()
      modifies this`w, this`turns
      ensures Valid() && Stamped(old(w), w)
      ensures old(turns) == [] ==> w == old(w) && turns == []
      ensures old(turns) != [] ==> w == old(turns)[0].world && turns == old(turns)[1..]
    {
      count := 0;
      if turns != [] {
        StampsKeepSane(w, turns[0].world);
        count := turns[0].count;
        w, turns := turns[0].world, turns[1..];
      }
    }

    method Stat(path: Entry) returns (s: FileSystem.Stat)
      requires Valid()
      modifies this`w, this`turns
      ensures Valid() && Stamped(old(w), w) && s == StatPath(w, path)
      ensures old(turns) == [] ==> w == old(w) && turns == []
      ensures old(turns) != [] ==> w == old(turns)[0].world && turns == old(turns)[1..]
    {
      var _ := Yield();
      s := StatPath(w, path);
    }

    method Open(path: Entry) returns (ok: bool)
      requires Valid()
      modifies this`w, this`turns, this`id, this`offset
      ensures Valid() && Stamped(old(w), w) && ok == (path in w.names)
      ensures ok ==> id == w.names[path] && offset == 0
      ensures old(turns) == [] ==> w == old(w) && turns == []
      ensures old(turns) != [] ==> w == old(turns)[0].world && turns == old(turns)[1..]
    {
      var _ := Yield();
      ok := path in w.names;
      if ok {
        id, offset := w.names[path], 0;
      }
    }

    /** The metadata behind the descriptor, if it is a regular file. */
    method FStat() returns (s: Option<Snapshot>)
      requires Valid()
      modifies this`w, this`turns
      ensures Valid() && Stamped(old(w), w)
      ensures s == if id in w.files && w.files[id].regular then Some(Snap(id, w.files[id])) else None
      ensures old(turns) == [] ==> w == old(w) && turns == []
      ensures old(turns) != [] ==> w == old(turns)[0].world && turns == old(turns)[1..]
    {
      var _ := Yield();
      s := if id in w.files && w.files[id].regular then Some(Snap(id, w.files[id])) else None;
    }

    /** `read` of at most `n` bytes, and never of none. */
    method Read(n: nat) returns (chunk: Bytes)
      requires Valid() && n >= 1
      modifies this`w, this`turns, this`offset, this`reach
      ensures Valid() && Stamped(old(w), w)
      ensures |chunk| <= n && offset == old(offset) + |chunk|
      ensures id in w.files ==> (chunk == [] <==> |w.files[id].bytes| <= old(offset))
      ensures id in w.files && chunk != [] ==> offset <= |w.files[id].bytes| && chunk == w.files[id].bytes[old(offset)..offset]
      ensures reach == if old(reach) < old(offset) + n then old(offset) + n else old(reach)
      ensures old(turns) == [] ==> w == old(w) && turns == []
      ensures old(turns) != [] ==> w == old(turns)[0].world && turns == old(turns)[1..]
    {
      var count := Yield();
      chunk := if id in w.files then ReadChunk(w.files[id].bytes, offset, n, count) else [];
      reach := if reach < offset + n then offset + n else reach;
      offset := offset + |chunk|;
    }

    method Seek(to: nat)
      modifies this`offset
      ensures offset == to
    {
      offset := to;
    }
  }

  lemma StampsKeepSane(w: World, w': World)
    requires Sane(w) && Stamped(w, w')
    ensures Sane(w')
  {
  }

  // ---- what a loop has read of a file that may be changing ----------------------------------------------

  /** Either the object is still `f` and `content` is its beginning, or its change time tells. */
  ghost predicate Reading(w: World, id: Id, f: File, content: Bytes) {
    && Sane(w) && Tracked(w, id, f)
    && (Intact(w, id, f) ==> |content| <= |f.bytes| && content == f.bytes[..|content|])
  }

  lemma ReadingGoesOn(w: World, w': World, id: Id, f: File, content: Bytes, chunk: Bytes)
    requires Reading(w, id, f, content) && Stamped(w, w')
    requires Intact(w', id, f) && chunk != [] ==>
               |content| + |chunk| <= |f.bytes| && chunk == f.bytes[|content|..|content| + |chunk|]
    ensures Reading(w', id, f, content + chunk)
    ensures Intact(w', id, f) ==> Intact(w, id, f)
  {
    TrackedIsStable(w, w', id, f);
    if Intact(w', id, f) { StillIntact(w, w', id, f); }
  }

  /** What has once been changed never looks untouched again. */
  lemma StillIntact(w: World, w': World, id: Id, f: File)
    requires Sane(w) && Stamped(w, w') && Tracked(w, id, f) && Intact(w', id, f)
    ensures Intact(w, id, f)
  {
  }

  // ---- the loops -----------------------------------------------------------------------------------------

  /**
   `capture_file_generation`: whatever others do meanwhile, a result is the generation and the digest of
   the whole content that the object has at the end; the offset is back on every path; and nothing
   behind the first byte past the limit is ever asked for.
   */
  method CaptureFileGeneration(p: Process, maxBytes: nat) returns (r: Result<Generation, Error>)
    requires p.Valid()
    modifies p
    ensures p.Valid() && p.id == old(p.id) && p.offset == old(p.offset)
    ensures r.Ok? ==> StatDescriptor(p.w, p.id) == Some(r.value.snap)
    ensures r.Ok? ==> r.value.sha == Sha256(p.w.files[p.id].bytes) && r.value.snap.size <= maxBytes
    ensures old(p.reach) <= maxBytes + 1 ==> p.reach <= maxBytes + 1
    ensures old(Undisturbed(p.w, p.turns, p.id)) ==> (r.Ok? <==> Acceptable(old(p.w.files[p.id]), maxBytes))
  {
    hide Stamped, Sane;
    ghost var quiet := Undisturbed(p.w, p.turns, p.id);
    var expected := p.FStat();
    if expected.None? || expected.value.nlink != 1 {
      return Err(NotRegular);
    }
    var size := expected.value.size;
    if size > maxBytes {
      return Err(TooBig);
    }
    ghost var f := p.w.files[p.id];
    var originalOffset := p.offset;
    p.Seek(0);
    var content: Bytes := [];
    var done := false;
    while |content| <= size && !done
      invariant p.Valid() && p.id == old(p.id) && p.offset == |content| <= size + 1
      invariant Reading(p.w, p.id, f, content)
      invariant quiet ==> Undisturbed(p.w, p.turns, p.id) && p.w.files[p.id] == f
      invariant done && quiet ==> content == f.bytes
      invariant old(p.reach) <= maxBytes + 1 ==> p.reach <= maxBytes + 1
      decreases size + 1 - |content|, !done
    {
      ghost var before := p.w;
      var chunk := p.Read(Min(CAPTURE_CHUNK, size + 1 - |content|));
      ReadingGoesOn(before, p.w, p.id, f, content, chunk);
      if chunk == [] {
        done := true;
      }
      content := content + chunk;
    }
    p.Seek(originalOffset);
    ghost var before := p.w;
    var after := p.FStat();
    ReadingGoesOn(before, p.w, p.id, f, content, []);
    if after != expected || |content| != size {
      return Err(Changed);
    }
    SameSnapshotSameFile(p.w, p.id, f);
    assert content == f.bytes;
    r := Ok(Generation(expected.value, Sha256(content)));
  }

  /** The read loop of `_read_bounded_regular_file`, of an object that was `f` when it started. */
  method ReadToEnd(p: Process, maxBytes: nat, ghost f: File, ghost path: Entry) returns (r: Result<Bytes, Error>)
    requires p.Valid() && p.offset == 0 && Reading(p.w, p.id, f, [])
    modifies p
    ensures p.Valid() && p.id == old(p.id)
    ensures Sane(p.w) && Tracked(p.w, p.id, f)
    ensures r.Ok? && Intact(p.w, p.id, f) ==> r.value == f.bytes
    ensures r.Ok? ==> |r.value| <= maxBytes
    ensures old(p.reach) <= maxBytes + 1 ==> p.reach <= maxBytes + 1
    ensures old(UndisturbedAt(p.w, p.turns, path)) ==> UndisturbedAt(p.w, p.turns, path)
    ensures old(UndisturbedAt(p.w, p.turns, path) && p.w.names[path] == p.id && p.w.files[p.id] == f) ==>
              p.w.names[path] == p.id && p.w.files[p.id] == f && (|f.bytes| <= maxBytes ==> r.Ok?)
  {
    ghost var quiet := UndisturbedAt(p.w, p.turns, path);
    ghost var quietHere := quiet && p.w.names[path] == p.id && p.w.files[p.id] == f;
    var content: Bytes := [];
    var done := false;
    while !done
      invariant p.Valid() && p.id == old(p.id) && p.offset == |content| <= maxBytes
      invariant Reading(p.w, p.id, f, content)
      invariant done && Intact(p.w, p.id, f) ==> content == f.bytes
      invariant quiet ==> UndisturbedAt(p.w, p.turns, path)
      invariant quietHere ==> p.w.names[path] == p.id && p.w.files[p.id] == f
      invariant old(p.reach) <= maxBytes + 1 ==> p.reach <= maxBytes + 1
      decreases maxBytes + 1 - |content|, !done
    {
      ghost var before := p.w;
      var chunk := p.Read(Min(READ_CHUNK, maxBytes + 1 - |content|));
      ReadingGoesOn(before, p.w, p.id, f, content, chunk);
      if chunk == [] {
        done := true;
      }
      content := content + chunk;
      if |content| > maxBytes {
        return Err(TooBig);
      }
    }
    r := Ok(content);
  }

  /** Up to the loop: the descriptor is open on the object that the path led to, and it looks the same. */
  method OpenUnchanged(p: Process, path: Entry, maxBytes: nat) returns (r: Result<Snapshot, Error>, ghost f: File)
    requires p.Valid()
    modifies p
    ensures p.Valid() && p.reach == old(p.reach)
    ensures r.Ok? ==> p.offset == 0 && Reading(p.w, p.id, f, []) && r.value == Snap(p.id, f) && Acceptable(f, maxBytes)
    ensures old(UndisturbedAt(p.w, p.turns, path)) ==> UndisturbedAt(p.w, p.turns, path) && p.w.names[path] == old(p.w.names[path])
    ensures old(UndisturbedAt(p.w, p.turns, path) && Acceptable(p.w.files[p.w.names[path]], maxBytes)) ==>
              r.Ok? && p.id == old(p.w.names[path]) && f == old(p.w.files[p.w.names[path]]) && p.w.files[p.id] == f
  {
    hide Stamped, Sane;
    f := File([], 0, 0, 0, false);
    var before := p.Stat(path);
    if before.Absent? {
      return Err(Missing), f;
    }
    if before.Irregular? || before.snap.nlink != 1 {
      return Err(NotRegular), f;
    }
    if before.snap.size > maxBytes {
      return Err(TooBig), f;
    }
    ghost var target, seen := p.w.names[path], p.w;
    f := p.w.files[target];
    var ok := p.Open(path);
    if !ok {
      return Err(Missing), f;
    }
    ghost var found := p.w;
    var first := p.FStat();
    if first != Some(before.snap) {
      return Err(Changed), f;
    }
    Unchanged(seen, found, p.w, target, f);
    r := Ok(before.snap);
  }

  /**
   `_read_bounded_regular_file` on POSIX: a result is the whole content of the object that the path
   leads to at the end, a regular file with one link within the limit.
   */
  method ReadBoundedRegularFile(p: Process, path: Entry, maxBytes: nat) returns (r: Result<Bytes, Error>)
    requires p.Valid()
    modifies p
    ensures p.Valid()
    ensures r.Ok? ==> path in p.w.names && p.w.names[path] in p.w.files
    ensures r.Ok? ==> var f := p.w.files[p.w.names[path]]; Acceptable(f, maxBytes) && r.value == f.bytes
    ensures old(p.reach) <= maxBytes + 1 ==> p.reach <= maxBytes + 1
    ensures old(UndisturbedAt(p.w, p.turns, path) && Acceptable(p.w.files[p.w.names[path]], maxBytes)) ==> r.Ok?
  {
    var first, f := OpenUnchanged(p, path, maxBytes);
    if first.Err? {
      return Err(first.error);
    }
    var content :- ReadToEnd(p, maxBytes, f, path);
    ghost var read := p.w;
    var second := p.FStat();
    ghost var middle := p.w;
    var after := p.Stat(path);
    if second != Some(first.value) || after != Regular(first.value) {
      return Err(Changed);
    }
    Unchanged(read, middle, p.w, p.id, f);
    r := Ok(content);
  }

  /** A file whose metadata is the same in the end was the same when it was read. */
  lemma Unchanged(w: World, m: World, w': World, id: Id, f: File)
    requires Sane(w) && Tracked(w, id, f) && Stamped(w, m) && Stamped(m, w')
    requires id in w'.files && Snap(id, w'.files[id]) == Snap(id, f)
    ensures w'.files[id] == f && Intact(w, id, f)
  {
    TrackedIsStable(w, m, id, f);
    TrackedIsStable(m, w', id, f);
    SameSnapshotSameFile(w', id, f);
    StillIntact(m, w', id, f);
    StillIntact(w, m, id, f);
  }

  // ---- writing -------------------------------------------------------------------------------------------

  /** A descriptor to write to; each turn says how much the next `write` takes, at most. */
  class Sink {
    var written: Bytes
    var turns: seq<int>

    constructor (turns: seq<int>)
      ensures written == [] && this.turns == turns
    {
      written, this.turns := [], turns;
    }

    method Write(chunk: Bytes) returns (count: int)
      modifies this
      ensures count <= |chunk|
      ensures written == old(written) + if count > 0 then chunk[..count] else []
      ensures old(turns) == [] ==> count == |chunk| && turns == []
      ensures old(turns) != [] ==> turns == old(turns)[1..] && (chunk != [] && old(turns)[0] > 0 ==> count > 0)
    {
      count := |chunk|;
      if turns != [] {
        if turns[0] < count { count := turns[0]; }
        turns := turns[1..];
      }
      if count > 0 { written := written + chunk[..count]; }
    }
  }

  /**
   `_write_all`: success means exactly the payload has been written, once and in order; failure leaves a
   beginning of it. It succeeds if every write makes progress.
   */
  method WriteAll(sink: Sink, payload: Bytes) returns (ok: bool)
    modifies sink
    ensures ok ==> sink.written == old(sink.written) + payload
    ensures !ok ==> exists n | 0 <= n < |payload| :: sink.written == old(sink.written) + payload[..n]
    ensures (forall t | t in old(sink.turns) :: t > 0) ==> ok
  {
    var offset := 0;
    while offset < |payload|
      invariant offset <= |payload| && sink.written == old(sink.written) + payload[..offset]
      invariant (forall t | t in old(sink.turns) :: t > 0) ==> forall t | t in sink.turns :: t > 0
    {
      ghost var so, at, left := sink.written, offset, sink.turns;
      if sink.turns != [] { assert sink.turns[0] in sink.turns; }
      var count := sink.Write(payload[offset..]);
      assert forall t | t in sink.turns :: t in left;
      if count <= 0 {
        assert so + [] == so;
        return false;
      }
      offset := offset + count;
      assert payload[at..][..count] == payload[at..offset] && payload[..at] + payload[at..offset] == payload[..offset];
      assert sink.written == old(sink.written) + (payload[..at] + payload[at..offset]);
    }
    assert payload[..offset] == payload;
    return true;
  }
}
