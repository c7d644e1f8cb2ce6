/**
 The installer succeeds when nothing is in its way: left alone, in a world that lets it, a run ends
 normally with the payload under the target, however short its reads and writes are.
 */
module AtomicProgress {
  import opened Wrappers
  import opened FileSystem
  import opened AtomicInstall
  import opened AtomicRuns

  // ---- what is needed ----------------------------------------------------------------------------------

  function TargetEntry(w: World, cfg: Config): Entry {
    Entry(w.parent, cfg.target)
  }

  /** The target is free, or a regular file that nobody holds and that may be replaced. */
  predicate Replaceable(w: World, cfg: Config) {
    var e := TargetEntry(w, cfg);
    e in w.names ==>
      && w.names[e] in w.files && w.files[w.names[e]].regular && w.names[e] !in w.held
      && !(cfg.task.Write? && cfg.task.requireAbsent)
  }

  /** The source to install is there, under another name, and is what its generation says. */
  predicate Installable(w: World, cfg: Config)
    requires cfg.task.Install?
  {
    var e, g := Entry(w.parent, cfg.task.source), cfg.task.generation;
    && cfg.task.source != cfg.target
    && e in w.names && w.names[e] == g.snap.id && g.snap.id in w.files
    && g == Generation(Snap(g.snap.id, w.files[g.snap.id]), Sha256(w.files[g.snap.id].bytes))
    && w.files[g.snap.id].regular && w.files[g.snap.id].nlink == 1
    && g.snap.id !in w.held && g.snap.id !in w.writing
    && Bound(w, TargetEntry(w, cfg)) != Some(g.snap.id)
  }

  /** Nothing stands in the way of this run. */
  predicate Promising(w: World, cfg: Config) {
    Replaceable(w, cfg) && (cfg.task.Install? ==> Installable(w, cfg))
  }

  /** No failure, and the random name and the new object are new. Short reads and writes are free. */
  predicate Willing(w: World, cfg: Config, c: Choice) {
    && !c.fail
    && c.id !in w.files && c.id !in w.writing && c.id !in w.held
    && Entry(w.parent, TempName(cfg.target, c.token)) !in w.names
  }

  // ---- a run on its way ------------------------------------------------------------------------------------

  /** The source as it must be from its creation on. */
  predicate Sourced(w: World, s: Run) {
    && s.temp != s.cfg.target
    && Bound(w, Entry(w.parent, s.temp)) == Some(s.tempId)
    && s.tempId in w.files && w.files[s.tempId].regular && w.files[s.tempId].nlink == 1
    && Bound(w, TargetEntry(w, s.cfg)) != Some(s.tempId)
  }

  predicate Complete(w: World, s: Run) {
    && Sourced(w, s) && s.tempId !in w.writing
    && w.files[s.tempId].bytes == Payload(s.cfg)
  }

  /** Its generation has been taken. */
  predicate Taken(w: World, s: Run) {
    Complete(w, s) && s.expected == Generation(Snap(s.tempId, w.files[s.tempId]), Sha256(Payload(s.cfg)))
  }

  predicate Compared(w: World, s: Run) {
    match s.dest.snap
    case None => TargetEntry(w, s.cfg) !in w.names
    case Some(snap) => StatPath(w, TargetEntry(w, s.cfg)) == Regular(snap)
  }

  predicate Opened(w: World, s: Run) {
    && s.pin.Some? && s.pin.value.fd == s.tempId && s.pin.value.from == Entry(w.parent, s.temp)
  }

  predicate Read(w: World, s: Run, pin: Pin)
    requires s.tempId in w.files
  {
    pin.seen == Snap(s.tempId, w.files[s.tempId]) && pin.read <= w.files[s.tempId].bytes
  }

  /** The target leads to the payload. */
  predicate Landed(w: World, s: Run) {
    && Bound(w, TargetEntry(w, s.cfg)) == Some(s.tempId)
    && s.tempId in w.files && w.files[s.tempId].regular && w.files[s.tempId].nlink == 1
    && w.files[s.tempId].bytes == Payload(s.cfg)
  }

  predicate Early(pc: Pc) {
    pc == Preparing(OpenParent) || pc == Preparing(CheckParent) || pc == Preparing(CreateTemp)
  }

  predicate Writing(pc: Pc) {
    pc == Preparing(Prepare) || pc == Preparing(WriteBytes)
  }

  /** What holds wherever the run is. */
  predicate Healthy(w0: World, w: World, s: Run) {
    && Promising(w0, s.cfg) && w.parent == w0.parent
    && !s.failed && s.commit.quarantine.NotNeeded? && Ready(s)
    && (s.pc != Preparing(OpenParent) && (UsesDirFd(s.cfg) || s.cfg.task.Install?) ==> s.dir == w.parent)
  }

  predicate BeforeTemp(w0: World, w: World, s: Run) {
    && w == w0 && s.tries == 0 && s.offset == 0 && s.commit.published.None?
    && (if s.cfg.task.Install?
        then s.temp == s.cfg.task.source && s.tempId == s.expected.snap.id && s.expected == s.cfg.task.generation
             && s.pc != Preparing(CreateTemp)
        else s.pc == Preparing(CreateTemp) || UsesDirFd(s.cfg))
  }

  /** Between the creation of the source and the publication. */
  predicate BeforeRename(w: World, s: Run) {
    && s.commit.published.None? && Replaceable(w, s.cfg)
    && match s.pc
       case Preparing(prep) =>
         if Writing(s.pc) then
           && Sourced(w, s) && s.tempId !in w.held && s.cfg.task.Write?
           && s.offset <= |Payload(s.cfg)| && w.files[s.tempId].bytes == Payload(s.cfg)[..s.offset]
         else if prep.SnapTemp? then Complete(w, s) && s.tempId !in w.held && s.cfg.task.Write?
         else Taken(w, s) && s.tempId !in w.held && (prep.SnapSource? ==> s.cfg.task.Install?)
       case Validated(valid) =>
         Taken(w, s) && s.tempId !in w.held && Compared(w, s) && (valid.RecheckParent? ==> s.cfg.task.Install?)
       case Pinned(_) => Taken(w, s) && Opened(w, s) && Compared(w, s)
       case Capturing(capture) =>
         Taken(w, s) && Opened(w, s) && Compared(w, s) && CaptureGood(w, s, capture)
       case Proved(_) => Taken(w, s) && Opened(w, s) && Compared(w, s)
       case _ => false
  }

  predicate CaptureGood(w: World, s: Run, capture: Capture)
    requires s.tempId in w.files && s.pin.Some?
  {
    && (!capture.CapStat? ==> Read(w, s, s.pin.value))
    && (capture.CapStatAfter? ==> s.pin.value.read == w.files[s.tempId].bytes)
  }

  predicate AfterRename(w: World, s: Run) {
    && s.commit.published.Some? && Landed(w, s)
    && s.expected == Generation(Snap(s.tempId, w.files[s.tempId]), Sha256(Payload(s.cfg)))
    && match s.pc
       case Capturing(capture) => s.pin.Some? && s.pin.value.fd == s.tempId && CaptureGood(w, s, capture)
       case Published(aftermath) => aftermath.FlushAgain?
       case Close => true
       case Ending(end) => !end.Cleanup?
       case _ => false
  }

  predicate OnTrack(w0: World, w: World, s: Run) {
    && Healthy(w0, w, s)
    && (if Early(s.pc) then BeforeTemp(w0, w, s)
        else if s.commit.published.None? then BeforeRename(w, s)
        else AfterRename(w, s))
  }

  // ---- how many steps are left ----------------------------------------------------------------------------

  function Unread(s: Run): nat {
    if s.pin.Some? && |s.pin.value.read| <= |Payload(s.cfg)| then |Payload(s.cfg)| - |s.pin.value.read| else 0
  }

  function Unwritten(s: Run): nat {
    if s.offset <= |Payload(s.cfg)| then |Payload(s.cfg)| - s.offset else 0
  }

  function CaptureLeft(s: Run, capture: Capture): nat {
    match capture
    case CapStat => 2 + |Payload(s.cfg)|
    case CapRead => 1 + Unread(s)
    case CapStatAfter => 0
  }

  /** An upper bound on the steps to the end. */
  function Left(s: Run): nat {
    var size := |Payload(s.cfg)|;
    match s.pc
    case Ending(end) => if end.Done? then 0 else 1
    case Close => 2
    case Published(_) => 3
    case Capturing(capture) => CaptureLeft(s, capture) + if s.commit.published.Some? then 4 else 11 + size
    case Proved(proof) => 7 + size + (match proof case Rename => 0 case Flush => 1 case PathCheck => 1 case ProveStat => 2)
    case Pinned(check) => 14 + 2 * size + (match check case DestCheck => 0 case PinCheck => 1)
    case Validated(valid) =>
      16 + 2 * size + (match valid case OpenSource => 0 case TempCheck => 1 case RecheckParent => 2 case Validate => 3)
    case Preparing(prep) =>
      match prep
      case SnapDest => 20 + 2 * size
      case SnapTemp => 21 + 2 * size
      case SnapSource => 21 + 2 * size
      case WriteBytes => 22 + 2 * size + Unwritten(s)
      case Prepare => 23 + 3 * size
      case CreateTemp => 24 + 3 * size
      case CheckParent => 25 + 3 * size
      case OpenParent => 26 + 3 * size
  }

  /** One step further, and fewer are left. */
  predicate Moved(w0: World, s: Run, o: Outcome) {
    OnTrack(w0, o.w, o.s) && o.s.cfg == s.cfg && Left(o.s) < Left(s)
  }

  // ---- every step gets further ---------------------------------------------------------------------------

  lemma StartIsOnTrack(w: World, cfg: Config)
    requires Promising(w, cfg)
    ensures OnTrack(w, w, Start(cfg)) && Left(Start(cfg)) <= 26 + 3 * |Payload(cfg)|
  {
  }

  lemma OpenParentMoves(w0: World, w: World, s: Run)
    requires OnTrack(w0, w, s) && s.pc == Preparing(OpenParent)
    ensures Moved(w0, s, StepOpenParent(w, s))
  {
  }

  lemma CheckParentMoves(w0: World, w: World, s: Run)
    requires OnTrack(w0, w, s) && s.pc == Preparing(CheckParent)
    ensures Moved(w0, s, StepCheckParent(w, s))
  {
  }

  lemma CreateTempMoves(w0: World, w: World, s: Run, c: Choice)
    requires OnTrack(w0, w, s) && s.pc == Preparing(CreateTemp) && Willing(w0, s.cfg, c)
    ensures Moved(w0, s, StepCreateTemp(w, s, c))
  {
    assert |TempName(s.cfg.target, c.token)| > |s.cfg.target|;
    assert Payload(s.cfg)[..0] == [];
  }

  lemma PrepareMoves(w0: World, w: World, s: Run, c: Choice)
    requires OnTrack(w0, w, s) && s.pc == Preparing(Prepare) && !c.fail
    ensures Moved(w0, s, StepPrepare(w, s, c))
  {
  }

  lemma WriteExtends(payload: Bytes, at: nat, k: nat)
    requires at + k <= |payload|
    ensures Overlay(payload[..at], at, payload[at..at + k]) == payload[..at + k]
  {
  }

  lemma WriteBytesMoves(w0: World, w: World, s: Run, c: Choice)
    requires OnTrack(w0, w, s) && s.pc == Preparing(WriteBytes) && !c.fail
    ensures Moved(w0, s, StepWriteBytes(w, s, c))
  {
    var left := |Payload(s.cfg)| - s.offset;
    if left > 0 {
      WriteExtends(Payload(s.cfg), s.offset, if 1 <= c.n <= left then c.n else left);
    } else {
      assert Payload(s.cfg)[..s.offset] == Payload(s.cfg);
    }
  }

  lemma SnapTempMoves(w0: World, w: World, s: Run)
    requires OnTrack(w0, w, s) && s.pc == Preparing(SnapTemp)
    ensures Moved(w0, s, StepSnapTemp(w, s))
  {
  }

  lemma SnapSourceMoves(w0: World, w: World, s: Run)
    requires OnTrack(w0, w, s) && s.pc == Preparing(SnapSource)
    ensures Moved(w0, s, StepSnapSource(w, s))
  {
  }

  lemma SnapDestMoves(w0: World, w: World, s: Run)
    requires OnTrack(w0, w, s) && s.pc == Preparing(SnapDest)
    ensures Moved(w0, s, StepSnapDest(w, s))
  {
    hide Promising;
  }

  lemma PreparingMoves(w0: World, w: World, s: Run, c: Choice)
    requires OnTrack(w0, w, s) && s.pc.Preparing? && Willing(w0, s.cfg, c)
    ensures Moved(w0, s, StepPreparing(w, s, c))
  {
    match s.pc.prep
    case OpenParent => OpenParentMoves(w0, w, s);
    case CheckParent => CheckParentMoves(w0, w, s);
    case CreateTemp => CreateTempMoves(w0, w, s, c);
    case Prepare => PrepareMoves(w0, w, s, c);
    case WriteBytes => WriteBytesMoves(w0, w, s, c);
    case SnapTemp => SnapTempMoves(w0, w, s);
    case SnapSource => SnapSourceMoves(w0, w, s);
    case SnapDest => SnapDestMoves(w0, w, s);
  }

  lemma CheckMoves(w0: World, w: World, s: Run, c: Choice)
    requires OnTrack(w0, w, s) && s.pc.Validated? && s.pc.valid != OpenSource && !c.fail
    ensures Moved(w0, s, StepValidated(w, s, c))
  {
    hide Installable;
  }

  lemma OpenSourceMoves(w0: World, w: World, s: Run, c: Choice)
    requires OnTrack(w0, w, s) && s.pc == Validated(OpenSource) && !c.fail
    ensures Moved(w0, s, StepOpenSource(w, s, c))
  {
    hide Landed;
  }

  lemma ValidatedMoves(w0: World, w: World, s: Run, c: Choice)
    requires OnTrack(w0, w, s) && s.pc.Validated? && !c.fail
    ensures Moved(w0, s, StepValidated(w, s, c))
  {
    match s.pc.valid
    case OpenSource => OpenSourceMoves(w0, w, s, c);
    case _ => CheckMoves(w0, w, s, c);
  }

  lemma PinnedMoves(w0: World, w: World, s: Run)
    requires OnTrack(w0, w, s) && s.pc.Pinned?
    ensures Moved(w0, s, StepPinned(w, s))
  {
    hide Installable;
  }

  lemma CapStatMoves(w0: World, w: World, s: Run)
    requires OnTrack(w0, w, s) && s.pc == Capturing(CapStat)
    ensures Moved(w0, s, StepCapStat(w, s, s.pin.value))
  {
  }

  lemma ChunkExtends(bytes: Bytes, read: Bytes, request: nat, n: nat)
    requires request > 0 && read <= bytes
    ensures
      var chunk := ReadChunk(bytes, |read|, request, n);
      if chunk == [] then read == bytes else read + chunk <= bytes && |read| < |read + chunk|
  {
  }

  lemma CapReadMoves(w0: World, w: World, s: Run, c: Choice)
    requires OnTrack(w0, w, s) && s.pc == Capturing(CapRead) && !c.fail
    ensures Moved(w0, s, StepCapRead(w, s, s.pin.value, c))
  {
    hide ReadChunk, UsesDirFd, ReadRequest;
    ChunkExtends(w.files[s.tempId].bytes, s.pin.value.read, ReadRequest(s.pin.value), c.n);
  }

  lemma CapStatAfterMoves(w0: World, w: World, s: Run)
    requires OnTrack(w0, w, s) && s.pc == Capturing(CapStatAfter)
    ensures Moved(w0, s, StepCapStatAfter(w, s, s.pin.value))
  {
    hide Installable, Promising;
  }

  lemma CapturingMoves(w0: World, w: World, s: Run, c: Choice)
    requires OnTrack(w0, w, s) && s.pc.Capturing? && !c.fail
    ensures Moved(w0, s, StepCapturing(w, s, c))
  {
    match s.pc.capture
    case CapStat => CapStatMoves(w0, w, s);
    case CapRead => CapReadMoves(w0, w, s, c);
    case CapStatAfter => CapStatAfterMoves(w0, w, s);
  }

  lemma RenameMoves(w0: World, w: World, s: Run, c: Choice)
    requires OnTrack(w0, w, s) && s.pc == Proved(Rename) && !c.fail
    ensures Moved(w0, s, StepRename(w, s, s.pin.value, c))
  {
    hide Read;
  }

  lemma ProvedMoves(w0: World, w: World, s: Run, c: Choice)
    requires OnTrack(w0, w, s) && s.pc.Proved? && !c.fail
    ensures Moved(w0, s, StepProved(w, s, c))
  {
    hide Landed;
    match s.pc.proof
    case Rename => RenameMoves(w0, w, s, c);
    case _ =>
  }

  lemma EndMoves(w0: World, w: World, s: Run, c: Choice)
    requires OnTrack(w0, w, s) && (s.pc.Published? || s.pc == Close || s.pc == Ending(SyncParent)) && !c.fail
    ensures Moved(w0, s, Step(w, s, c))
  {
    hide Snap, Taken, Sourced, Compared, StepPreparing;
  }

  lemma StepMoves(w0: World, w: World, s: Run, c: Choice)
    requires OnTrack(w0, w, s) && s.pc != Ending(Done) && Willing(w0, s.cfg, c)
    ensures Moved(w0, s, Step(w, s, c))
  {
    match s.pc
    case Preparing(_) => PreparingMoves(w0, w, s, c);
    case Validated(_) => ValidatedMoves(w0, w, s, c);
    case Pinned(_) => PinnedMoves(w0, w, s);
    case Capturing(_) => CapturingMoves(w0, w, s, c);
    case Proved(_) => ProvedMoves(w0, w, s, c);
    case _ => EndMoves(w0, w, s, c);
  }

  // ---- the whole run -----------------------------------------------------------------------------------------

  /** A run that nobody disturbs. */
  function Alone(w: World, s: Run, cs: seq<Choice>): Outcome
    decreases |cs|
  {
    if cs == [] then Outcome(w, s)
    else
      var o := Advance(w, s, cs[0]);
      Alone(o.w, o.s, cs[1..])
  }

  lemma {:induction false} TrackLeadsToTheEnd(w0: World, w: World, s: Run, cs: seq<Choice>)
    requires OnTrack(w0, w, s) && Left(s) <= |cs| && forall c | c in cs :: Willing(w0, s.cfg, c)
    ensures
      var o := Alone(w, s, cs);
      o.s.pc == Ending(Done) && OnTrack(w0, o.w, o.s) && o.s.cfg == s.cfg
    decreases |cs|
  {
    if cs != [] {
      assert cs[0] in cs;
      if s.pc == Ending(Done) {
        TrackLeadsToTheEnd(w0, w, s, cs[1..]);
      } else {
        var o := Step(w, s, cs[0]);
        StepMoves(w0, w, s, cs[0]);
        TrackLeadsToTheEnd(w0, o.w, o.s, cs[1..]);
      }
    }
  }

  /** The same as an execution of a system that has only this run. */
  function Solo(cs: seq<Choice>): seq<Event> {
    if cs == [] then [] else [Event.Move(0, cs[0])] + Solo(cs[1..])
  }

  lemma {:induction false} SoloIsAlone(platform: Platform, w: World, s: Run, cs: seq<Choice>)
    ensures Execution(platform, System(w, [s]), Solo(cs))
    ensures Final(System(w, [s]), Solo(cs)) == System(Alone(w, s, cs).w, [Alone(w, s, cs).s])
    decreases |cs|
  {
    hide Step, Ready;
    if cs != [] {
      var o, es := Advance(w, s, cs[0]), Solo(cs);
      assert es[0] == Event.Move(0, cs[0]) && es[1..] == Solo(cs[1..]);
      assert [s][0 := o.s] == [o.s];
      SoloIsAlone(platform, o.w, o.s, cs[1..]);
    }
  }

  /**
   Main result, on both platforms, for both tasks, pinned or not: if nothing stands in the way and
   nobody interferes, then whatever the sizes of the single reads and writes, after at most
   `26 + 3 * |payload|` steps the run has returned normally and the target leads to the payload.
   */
  lemma UndisturbedRunSucceeds(w: World, cfg: Config, cs: seq<Choice>)
    requires Promising(w, cfg) && 26 + 3 * |Payload(cfg)| <= |cs| && forall c | c in cs :: Willing(w, cfg, c)
    ensures Execution(cfg.platform, System(w, [Start(cfg)]), Solo(cs))
    ensures
      var y := Final(System(w, [Start(cfg)]), Solo(cs));
      var e := Entry(w.parent, cfg.target);
      && |y.runs| == 1 && y.runs[0].pc == Ending(Done) && !y.runs[0].failed
      && y.runs[0].commit.published.Some? && y.runs[0].commit.quarantine.NotNeeded?
      && y.world.parent == w.parent && e in y.world.names && y.world.names[e] in y.world.files
      && y.world.files[y.world.names[e]].bytes == Payload(cfg)
  {
    SoloIsAlone(cfg.platform, w, Start(cfg), cs);
    StartIsOnTrack(w, cfg);
    TrackLeadsToTheEnd(w, w, Start(cfg), cs);
  }
}
