/**
 The conditional installer of `roam.atomic_io` as a state machine: one step per system call.
 Every step is a total function of the world, the run and a `Choice` that fixes what the
 operating system decides (a short read, a failure, a random name).
 */
module AtomicInstall {
  import opened Wrappers
  import opened FileSystem

  /** `atomic_write_bytes` (`pinned` is `secure_parent`) or `conditional_install_file`. */
  datatype Task =
    | Write(content: Bytes, requireAbsent: bool, pinned: bool)
    | Install(source: string, generation: Generation)

  datatype Config = Config(platform: Platform, target: string, task: Task, durable: bool)

  // Program points, one group per stretch of the protocol.
  datatype Prep = OpenParent | CheckParent | CreateTemp | Prepare | WriteBytes | SnapTemp | SnapSource | SnapDest
  datatype Valid = Validate | RecheckParent | TempCheck | OpenSource
  datatype Check = PinCheck | DestCheck
  datatype Capture = CapStat | CapRead | CapStatAfter
  datatype Proof = ProveStat | PathCheck | Flush | Rename
  datatype Aftermath = Quarantining | FlushAgain
  datatype End = SyncParent | Cleanup | Done

  datatype Pc =
    | Preparing(prep: Prep)        // up to the destination snapshot
    | Validated(valid: Valid)      // the caller's validator, and up to the pin
    | Pinned(check: Check)         // the source descriptor is open from here ...
    | Capturing(capture: Capture)
    | Proved(proof: Proof)
    | Published(aftermath: Aftermath)
    | Close                        // ... to here
    | Ending(end: End)

  /** What the rename did: `over` is the object that the target named just before it. */
  datatype Publication = Publication(entry: Entry, id: Id, file: File, over: Option<Id>)

  datatype Quarantine = NotNeeded | Moved(to: Entry) | Stuck

  /** The destination as captured before the validator ran (`snap`), with its history. */
  datatype Destination = Destination(
    snap: Option<Snapshot>,
    file: Option<File>,          // history: the object at the snapshot ...
    final: Option<(Id, File)>)   // ... and at the last check

  /** The pinned source: descriptor `fd`, the name it was opened through, and one capture. */
  datatype Pin = Pin(
    fd: Id,
    from: Entry,
    seen: Snapshot,              // the `fstat` that the capture started with
    read: Bytes,                 // bytes hashed so far
    looked: File)                // history: the object at that `fstat`

  datatype Commitment = Commitment(
    published: Option<Publication>,
    proved: bool,                // history: the published object was captured again and matched
    quarantine: Quarantine)

  datatype Run = Run(
    cfg: Config,
    pc: Pc,
    dir: Dir,                    // the parent directory opened at the start
    temp: string,                // name of the tempfile, or of the source to install
    tempId: Id,
    tries: nat,
    offset: nat,                 // bytes written so far
    expected: Generation,
    dest: Destination,
    pin: Option<Pin>,            // the source descriptor, while it is open
    commit: Commitment,
    failed: bool)

  datatype Choice = Choice(fail: bool, n: nat, token: string, id: Id)
  datatype Outcome = Outcome(w: World, s: Run)

  const NO_FILE := File([], 0, 0, 0, false)
  const MAX_TRIES: nat := 128
  const READ_SIZE: nat := 65536

  function Payload(cfg: Config): Bytes {
    match cfg.task
    case Write(content, _, _) => content
    case Install(_, generation) => generation.sha.of
  }

  predicate UsesDirFd(cfg: Config) {
    cfg.platform.Posix? && (cfg.task.Install? || cfg.task.pinned)
  }

  function TempName(target: string, token: string): string {
    "." + target + "." + token + ".tmp"
  }

  function QuarantineName(target: string, token: string): string {
    "." + target + "." + token + ".atomic-conflict"
  }

  function Start(cfg: Config): Run {
    var generation := if cfg.task.Install? then cfg.task.generation
                      else Generation(Snap(0, NO_FILE), Sha256(cfg.task.content));
    var pc := if cfg.task.Install? || UsesDirFd(cfg) then Preparing(OpenParent) else Preparing(CreateTemp);
    Run(cfg, pc, 0, if cfg.task.Install? then cfg.task.source else "", generation.snap.id, 0, 0, generation,
        Destination(None, None, None), None, Commitment(None, false, NotNeeded), false)
  }

  /** The directory that a name resolves in: the opened one, or wherever the pathname leads now. */
  function Where(w: World, s: Run): Dir {
    if UsesDirFd(s.cfg) then s.dir else w.parent
  }

  function Source(w: World, s: Run): Entry {
    Entry(Where(w, s), s.temp)
  }

  function Target(w: World, s: Run): Entry {
    Entry(Where(w, s), s.cfg.target)
  }

  /** Raising: an open descriptor is closed first, then the tempfile is cleaned up. */
  function Raise(w: World, s: Run): Outcome {
    Outcome(w, s.(failed := true, pc := if s.pin.Some? then Close else Ending(Cleanup)))
  }

  /** Raising inside a capture: after publication the object is quarantined first. */
  function Refuse(w: World, s: Run): Outcome {
    if s.commit.published.Some? then Outcome(w, s.(pc := Published(Quarantining), tries := 0)) else Raise(w, s)
  }

  function Goto(w: World, s: Run, pc: Pc): Outcome {
    Outcome(w, s.(pc := pc))
  }

  function StepOpenParent(w: World, s: Run): Outcome {
    if s.cfg.task.Install? && s.cfg.task.source == s.cfg.target then Raise(w, s)
    else Outcome(w, s.(dir := w.parent, pc := Preparing(CheckParent)))
  }

  function StepCheckParent(w: World, s: Run): Outcome {
    if w.parent != s.dir then Raise(w, s)
    else Goto(w, s, if s.cfg.task.Install? then Preparing(SnapSource) else Preparing(CreateTemp))
  }

  function StepCreateTemp(w: World, s: Run, c: Choice): Outcome {
    var name := TempName(s.cfg.target, c.token);
    var e := Entry(Where(w, s), name);
    if s.tries >= MAX_TRIES || c.fail || c.id in w.files || c.id in w.writing || c.id in w.held then Raise(w, s)
    else if e in w.names then Outcome(w, s.(tries := s.tries + 1))
    else
      var now := w.clock + 1;
      Outcome(w.(names := w.names[e := c.id], files := w.files[c.id := File([], now, now, 1, true)],
                 writing := w.writing + {c.id}, clock := now),
              s.(temp := name, tempId := c.id, pc := Preparing(Prepare)))
  }

  function CloseWriteHandle(w: World, s: Run): World {
    w.(writing := w.writing - {s.tempId})
  }

  function StepPrepare(w: World, s: Run, c: Choice): Outcome {
    if c.fail then Raise(CloseWriteHandle(w, s), s) else Goto(w, s, Preparing(WriteBytes))
  }

  function StepWriteBytes(w: World, s: Run, c: Choice): Outcome {
    var content := Payload(s.cfg);
    if c.fail || s.tempId !in w.files then Raise(CloseWriteHandle(w, s), s)
    else if s.offset >= |content| then Goto(CloseWriteHandle(w, s), s, Preparing(SnapTemp))
    else
      var left := |content| - s.offset;
      var k := if 1 <= c.n <= left then c.n else left;
      var f := w.files[s.tempId];
      var now := w.clock + 1;
      var f' := f.(bytes := Overlay(f.bytes, s.offset, content[s.offset..s.offset + k]), mtime := now, ctime := now);
      Outcome(w.(files := w.files[s.tempId := f'], clock := now), s.(offset := s.offset + k))
  }

  function StepSnapTemp(w: World, s: Run): Outcome {
    match StatPath(w, Source(w, s))
    case Regular(snap) =>
      if snap.id != s.tempId then Raise(w, s)
      else Outcome(w, s.(expected := Generation(snap, Sha256(Payload(s.cfg))), pc := Preparing(SnapDest)))
    case _ => Raise(w, s)
  }

  function StepSnapSource(w: World, s: Run): Outcome {
    if StatPath(w, Source(w, s)) == Regular(s.expected.snap) then Goto(w, s, Preparing(SnapDest)) else Raise(w, s)
  }

  function StepSnapDest(w: World, s: Run): Outcome {
    match StatPath(w, Target(w, s))
    case Irregular => Raise(w, s)
    case Absent => Outcome(w, s.(dest := Destination(None, None, None), pc := Validated(Validate)))
    case Regular(snap) =>
      if s.cfg.task.Write? && s.cfg.task.requireAbsent then Raise(w, s)
      else Outcome(w, s.(dest := Destination(Some(snap), Some(w.files[snap.id]), None), pc := Validated(Validate)))
  }

  function StepValidate(w: World, s: Run, c: Choice): Outcome {
    if c.fail then Raise(w, s) else Goto(w, s, if s.cfg.task.Install? then Validated(RecheckParent) else Validated(TempCheck))
  }

  function StepRecheckParent(w: World, s: Run): Outcome {
    if w.parent != s.dir then Raise(w, s) else Goto(w, s, Validated(TempCheck))
  }

  function StepTempCheck(w: World, s: Run): Outcome {
    match StatPath(w, Source(w, s))
    case Regular(snap) =>
      if snap.id != s.tempId || snap.nlink != 1 || snap != s.expected.snap then Raise(w, s) else Goto(w, s, Validated(OpenSource))
    case _ => Raise(w, s)
  }

  /** POSIX opens for reading; Windows opens with no sharing, which any other handle forbids. */
  function StepOpenSource(w: World, s: Run, c: Choice): Outcome {
    var e := Source(w, s);
    if c.fail || e !in w.names || w.names[e] !in w.files then Raise(w, s)
    else
      var id := w.names[e];
      var s' := s.(pin := Some(Pin(id, e, s.expected.snap, [], w.files[id])), pc := Pinned(PinCheck));
      if s.cfg.platform.Posix? then Outcome(w, s')
      else if id in w.held || id in w.writing then Raise(w, s)
      else Outcome(w.(held := w.held + {id}), s')
  }

  function StepPinCheck(w: World, s: Run, pin: Pin): Outcome {
    if StatDescriptor(w, pin.fd) == Some(s.expected.snap)
    then Goto(w, s, if s.dest.snap.Some? then Pinned(DestCheck) else Capturing(CapStat))
    else Raise(w, s)
  }

  function StepDestCheck(w: World, s: Run, snap: Snapshot): Outcome {
    if StatPath(w, Target(w, s)) == Regular(snap)
    then Outcome(w, s.(dest := s.dest.(final := Some((snap.id, w.files[snap.id]))), pc := Capturing(CapStat)))
    else Raise(w, s)
  }

  function StepCapStat(w: World, s: Run, pin: Pin): Outcome {
    match StatDescriptor(w, pin.fd)
    case Some(snap) =>
      if snap.size > s.expected.snap.size then Refuse(w, s)
      else Outcome(w, s.(pin := Some(pin.(seen := snap, looked := w.files[pin.fd], read := [])), pc := Capturing(CapRead)))
    case None => Refuse(w, s)
  }

  /** One byte more than the expected size is asked for, so growth is noticed. */
  function ReadRequest(pin: Pin): (request: nat)
    requires |pin.read| <= pin.seen.size
    ensures 1 <= request <= pin.seen.size + 1 - |pin.read|
  {
    var left := pin.seen.size + 1 - |pin.read|;
    if READ_SIZE < left then READ_SIZE else left
  }

  function StepCapRead(w: World, s: Run, pin: Pin, c: Choice): Outcome {
    if |pin.read| > pin.seen.size then Goto(w, s, Capturing(CapStatAfter))
    else if c.fail || pin.fd !in w.files then Refuse(w, s)
    else
      var chunk := ReadChunk(w.files[pin.fd].bytes, |pin.read|, ReadRequest(pin), c.n);
      if chunk == [] then Goto(w, s, Capturing(CapStatAfter)) else Outcome(w, s.(pin := Some(pin.(read := pin.read + chunk))))
  }

  function StepCapStatAfter(w: World, s: Run, pin: Pin): Outcome {
    if |pin.read| != pin.seen.size || StatDescriptor(w, pin.fd) != Some(pin.seen)
       || Generation(pin.seen, Sha256(pin.read)) != s.expected
    then Refuse(w, s)
    else if s.commit.published.Some?
    then Outcome(w, s.(commit := s.commit.(proved := true), pc := if s.cfg.durable then Published(FlushAgain) else Close))
    else Goto(w, s, Proved(ProveStat))
  }

  function StepProveStat(w: World, s: Run, pin: Pin): Outcome {
    if StatDescriptor(w, pin.fd) != Some(s.expected.snap) then Raise(w, s)
    else if s.cfg.platform.Posix? then Goto(w, s, Proved(PathCheck))
    else Goto(w, s, if s.cfg.durable then Proved(Flush) else Proved(Rename))
  }

  function StepPathCheck(w: World, s: Run): Outcome {
    if StatPath(w, Source(w, s)) == Regular(s.expected.snap) then Goto(w, s, Proved(Rename)) else Raise(w, s)
  }

  function StepFlush(w: World, s: Run, c: Choice): Outcome {
    if c.fail then Raise(w, s) else Goto(w, s, Proved(Rename))
  }

  function StepFlushAgain(w: World, s: Run, c: Choice): Outcome {
    if c.fail then Raise(w, s) else Goto(w, s, Close)
  }

  function Move(names: map<Entry, Id>, src: Entry, dst: Entry, id: Id): map<Entry, Id> {
    (names - {src})[dst := id]
  }

  function Bound(w: World, e: Entry): Option<Id> {
    if e in w.names then Some(w.names[e]) else None
  }

  /**
   POSIX re-resolves both names: whatever the source names now is what moves, and two links to
   one object make the rename a no-op. Windows moves the held object itself.
   */
  function StepRename(w: World, s: Run, pin: Pin, c: Choice): Outcome {
    var dst := Target(w, s);
    var src := if s.cfg.platform.Posix? then Source(w, s) else pin.from;
    if c.fail || src !in w.names || (s.dest.snap.None? && dst in w.names) then Raise(w, s)
    else
      var id := if s.cfg.platform.Posix? then w.names[src] else pin.fd;
      if id !in w.files || (s.cfg.platform.Windows? && dst in w.names && w.names[dst] in w.held) then Raise(w, s)
      else
        var names := if Bound(w, dst) == Some(id) then w.names else Move(w.names, src, dst, id);
        Outcome(w.(names := names),
                s.(commit := s.commit.(published := Some(Publication(dst, id, w.files[id], Bound(w, dst)))),
                   pc := if s.cfg.platform.Posix? then Close else Capturing(CapStat)))
  }

  function StepQuarantining(w: World, s: Run, pin: Pin, published: Publication, c: Choice): Outcome {
    var q := Entry(w.parent, QuarantineName(s.cfg.target, c.token));
    if s.tries >= MAX_TRIES || c.fail then Raise(w, s.(commit := s.commit.(quarantine := Stuck)))
    else if q in w.names then Outcome(w, s.(tries := s.tries + 1))
    else Raise(w.(names := Move(w.names, published.entry, q, pin.fd)), s.(commit := s.commit.(quarantine := Moved(q))))
  }

  function StepClose(w: World, s: Run, pin: Pin): Outcome {
    var w' := if s.cfg.platform.Windows? then w.(held := w.held - {pin.fd}) else w;
    Outcome(w', s.(pin := None, pc := if s.failed then Ending(Cleanup) else Ending(SyncParent)))
  }

  /** A directory sync that fails after the rename raises although the file is installed. */
  function StepSyncParent(w: World, s: Run, c: Choice): Outcome {
    if s.cfg.platform.Posix? && s.cfg.durable && c.fail then Raise(w, s) else Goto(w, s, Ending(Done))
  }

  /** POSIX retains the tempfile; Windows deletes it through a handle with the same identity. */
  function StepCleanup(w: World, s: Run, c: Choice): Outcome {
    var e := Source(w, s);
    if s.cfg.platform.Windows? && s.cfg.task.Write? && s.temp != "" && !c.fail && Bound(w, e) == Some(s.tempId)
       && s.tempId !in w.held && s.tempId !in w.writing
    then Goto(w.(names := w.names - {e}), s, Ending(Done))
    else Goto(w, s, Ending(Done))
  }

  /** The locals that a step reads have been assigned. */
  predicate Ready(s: Run) {
    && (s.pin.Some? <==> !s.pc.Preparing? && !s.pc.Validated? && !s.pc.Ending?)
    && (s.pc == Pinned(DestCheck) ==> s.dest.snap.Some?)
    && (s.pc.Published? ==> s.commit.published.Some?)
  }

  function StepPreparing(w: World, s: Run, c: Choice): Outcome
    requires s.pc.Preparing?
  {
    match s.pc.prep
    case OpenParent => StepOpenParent(w, s)
    case CheckParent => StepCheckParent(w, s)
    case CreateTemp => StepCreateTemp(w, s, c)
    case Prepare => StepPrepare(w, s, c)
    case WriteBytes => StepWriteBytes(w, s, c)
    case SnapTemp => StepSnapTemp(w, s)
    case SnapSource => StepSnapSource(w, s)
    case SnapDest => StepSnapDest(w, s)
  }

  function StepValidated(w: World, s: Run, c: Choice): Outcome
    requires s.pc.Validated?
  {
    match s.pc.valid
    case Validate => StepValidate(w, s, c)
    case RecheckParent => StepRecheckParent(w, s)
    case TempCheck => StepTempCheck(w, s)
    case OpenSource => StepOpenSource(w, s, c)
  }

  function StepPinned(w: World, s: Run): Outcome
    requires s.pc.Pinned? && Ready(s)
  {
    match s.pc.check
    case PinCheck => StepPinCheck(w, s, s.pin.value)
    case DestCheck => StepDestCheck(w, s, s.dest.snap.value)
  }

  /** `capture_file_generation`, before publication and, on Windows, once more after it. */
  function StepCapturing(w: World, s: Run, c: Choice): Outcome
    requires s.pc.Capturing? && Ready(s)
  {
    match s.pc.capture
    case CapStat => StepCapStat(w, s, s.pin.value)
    case CapRead => StepCapRead(w, s, s.pin.value, c)
    case CapStatAfter => StepCapStatAfter(w, s, s.pin.value)
  }

  function StepProved(w: World, s: Run, c: Choice): Outcome
    requires s.pc.Proved? && Ready(s)
  {
    match s.pc.proof
    case ProveStat => StepProveStat(w, s, s.pin.value)
    case PathCheck => StepPathCheck(w, s)
    case Flush => StepFlush(w, s, c)
    case Rename => StepRename(w, s, s.pin.value, c)
  }

  function StepPublished(w: World, s: Run, c: Choice): Outcome
    requires s.pc.Published? && Ready(s)
  {
    match s.pc.aftermath
    case Quarantining => StepQuarantining(w, s, s.pin.value, s.commit.published.value, c)
    case FlushAgain => StepFlushAgain(w, s, c)
  }

  function StepEnding(w: World, s: Run, c: Choice): Outcome
    requires s.pc.Ending?
  {
    match s.pc.end
    case SyncParent => StepSyncParent(w, s, c)
    case Cleanup => StepCleanup(w, s, c)
    case Done => Outcome(w, s)
  }

  function Step(w: World, s: Run, c: Choice): Outcome
    requires Ready(s)
  {
    match s.pc
    case Preparing(_) => StepPreparing(w, s, c)
    case Validated(_) => StepValidated(w, s, c)
    case Pinned(_) => StepPinned(w, s)
    case Capturing(_) => StepCapturing(w, s, c)
    case Proved(_) => StepProved(w, s, c)
    case Published(_) => StepPublished(w, s, c)
    case Close => StepClose(w, s, s.pin.value)
    case Ending(_) => StepEnding(w, s, c)
  }
}
