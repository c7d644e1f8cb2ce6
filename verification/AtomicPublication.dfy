/**
 What every run of the installer publishes, whatever other processes do between its steps.
 */
module AtomicPublication {
  import opened Wrappers
  import opened FileSystem
  import opened AtomicInstall

  /** The generation to publish is fixed. */
  predicate Sealed(s: Run) {
    || s.cfg.task.Install?
    || (s.pc != Close && !s.pc.Ending? && (s.pc.Preparing? ==> s.pc.prep.SnapDest?))
  }

  predicate MidCapture(pc: Pc) {
    pc == Capturing(CapRead) || pc == Capturing(CapStatAfter)
  }

  predicate Proving(pc: Pc) {
    pc == Proved(ProveStat) || pc == Proved(PathCheck)
  }

  /** Facts that mention only the run itself. */
  ghost predicate RunInv(s: Run) {
    && Ready(s)
    && (Sealed(s) ==> s.expected.sha == Sha256(Payload(s.cfg)))
    && (s.pc == Preparing(SnapSource) ==> s.cfg.task.Install?)
    && (s.pc == Proved(PathCheck) ==> s.cfg.platform.Posix?)
    && (s.pc == Proved(Flush) ==> s.cfg.platform.Windows?)
    && (s.failed ==> s.pc == Close || s.pc.Ending?)
    && match s.commit.published {
         case None =>
           && s.commit.quarantine.NotNeeded?
           && (s.pc == Close || s.pc.Ending? ==> s.failed)
         case Some(p) =>
           && (s.pc == Close || s.pc.Ending? || (s.cfg.platform.Windows? && (s.pc.Capturing? || s.pc.Published?)))
           && (!s.commit.quarantine.NotNeeded? ==> s.failed)
       }
  }

  ghost predicate PublicationInv(s: Run) {
    s.commit.published.Some? ==> s.commit.published.value.file.bytes == Payload(s.cfg)
  }

  ghost predicate DestinationInv(s: Run) {
    match s.dest.snap
    case None => s.commit.published.Some? ==> s.commit.published.value.over.None?
    case Some(snap) =>
      && s.dest.file.Some?
      && snap == Snap(snap.id, s.dest.file.value)
      && (s.pc.Capturing? || s.pc.Proved? || s.commit.published.Some? ==> CheckedDestination(s.cfg.platform, s.dest))
  }

  /** What the last check of an existing destination establishes. */
  ghost predicate CheckedDestination(platform: Platform, d: Destination) {
    && d.snap.Some? && d.file.Some? && d.final.Some?
    && Snap(d.final.value.0, d.final.value.1) == d.snap.value
    && (platform.Posix? ==> d.final.value.1 == d.file.value)
  }

  /** POSIX: what the descriptor has shown so far, in terms of the object as it was first seen. */
  ghost predicate PosixInv(w: World, s: Run) {
    && Sane(w)
    && (MidCapture(s.pc) && s.pin.Some? ==> CaptureInv(w, s.pin.value))
    && (Proving(s.pc) && s.pin.Some? ==>
          && s.expected.snap == Snap(s.pin.value.fd, s.pin.value.looked)
          && Tracked(w, s.pin.value.fd, s.pin.value.looked)
          && s.pin.value.looked.bytes == Payload(s.cfg))
    && (s.pc == Proved(Rename) ==> SourceReady(w, s))
    && (s.dest.snap.Some? && s.dest.file.Some? && (s.pc.Validated? || s.pc.Pinned?) ==>
          Tracked(w, s.dest.snap.value.id, s.dest.file.value))
  }

  ghost predicate CaptureInv(w: World, pin: Pin) {
    && pin.seen == Snap(pin.fd, pin.looked)
    && Tracked(w, pin.fd, pin.looked)
    && (Intact(w, pin.fd, pin.looked) ==> pin.read <= pin.looked.bytes)
  }

  /** The source name leads to an object that holds exactly the payload. */
  ghost predicate SourceReady(w: World, s: Run) {
    && Source(w, s) in w.names
    && w.names[Source(w, s)] in w.files
    && w.files[w.names[Source(w, s)]].bytes == Payload(s.cfg)
  }

  /** Windows: the exclusive handle freezes the object that is being proved and published. */
  ghost predicate WindowsInv(w: World, s: Run) {
    && (s.pc == Preparing(Prepare) || s.pc == Preparing(WriteBytes) ==> s.tempId in w.writing)
    && (s.pin.Some? ==>
          && s.pin.value.fd in w.held
          && s.pin.value.fd in w.files
          && HeldInv(s, s.pin.value, w.files[s.pin.value.fd].bytes)
          && (match s.commit.published
              case None => s.pin.value.from in w.names && w.names[s.pin.value.from] == s.pin.value.fd
              case Some(p) => Committed(w, s, s.pin.value, p)))
  }

  ghost predicate HeldInv(s: Run, pin: Pin, bytes: Bytes) {
    && (MidCapture(s.pc) ==> pin.seen.size == |bytes| && pin.read <= bytes)
    && (s.pc.Proved? || s.commit.published.Some? ==> bytes == Payload(s.cfg))
  }

  /** While the handle is held the published object sits at the target or in quarantine. */
  ghost predicate Committed(w: World, s: Run, pin: Pin, p: Publication) {
    match s.commit.quarantine
    case Moved(q) => s.failed && q in w.names && w.names[q] == pin.fd
    case Stuck => s.failed && p.entry in w.names && w.names[p.entry] == pin.fd
    case NotNeeded =>
      && p.entry in w.names && w.names[p.entry] == pin.fd
      && (s.pc == Close || s.pc == Published(FlushAgain) ==> s.commit.proved)
  }

  ghost predicate Inv(w: World, s: Run) {
    RunInv(s) && PublicationInv(s) && DestinationInv(s) && (if s.cfg.platform.Posix? then PosixInv(w, s) else WindowsInv(w, s))
  }

  function HandlesOf(s: Run): Handles {
    if s.cfg.platform.Posix? then Handles({}, {})
    else Handles(if s.pin.Some? then {s.pin.value.fd} else {},
                 if s.pc == Preparing(Prepare) || s.pc == Preparing(WriteBytes) then {s.tempId} else {})
  }

  /**
   The one assumption POSIX needs: between the final path check and the rename nobody touches
   the source name or the object it leads to.
   */
  ghost predicate Quiet(w: World, w': World, s: Run) {
    s.cfg.platform.Posix? && s.pc == Proved(Rename) ==>
      && Bound(w', Source(w', s)) == Bound(w, Source(w, s))
      && (forall id | Bound(w, Source(w, s)) == Some(id) && id in w.files ::
            id in w'.files && w'.files[id] == w.files[id])
  }

  // ---- one run against the world -------------------------------------------------------

  lemma StartInv(w: World, cfg: Config)
    requires cfg.platform.Posix? ==> Sane(w)
    ensures Inv(w, Start(cfg))
  {
  }

  lemma InterferenceKeepsInv(w: World, w': World, s: Run)
    requires Inv(w, s) && Interference(s.cfg.platform, w, w', HandlesOf(s)) && Quiet(w, w', s)
    ensures Inv(w', s)
  {
    if s.cfg.platform.Posix? {
      if s.pin.Some? && (MidCapture(s.pc) || Proving(s.pc)) {
        TrackedIsStable(w, w', s.pin.value.fd, s.pin.value.looked);
      }
      if s.dest.snap.Some? && (s.pc.Validated? || s.pc.Pinned?) {
        TrackedIsStable(w, w', s.dest.snap.value.id, s.dest.file.value);
      }
    } else if s.pin.Some? {
      assert Locked(w, w', s.pin.value.fd);
    }
  }

  // ---- each step keeps the invariant -----------------------------------------------------

  lemma OpenParentKeepsInv(w: World, s: Run, o: Outcome)
    requires Inv(w, s) && s.pc == Preparing(OpenParent) && o == StepOpenParent(w, s)
    ensures Inv(o.w, o.s)
  {
  }

  lemma CheckParentKeepsInv(w: World, s: Run, o: Outcome)
    requires Inv(w, s) && s.pc == Preparing(CheckParent) && o == StepCheckParent(w, s)
    ensures Inv(o.w, o.s)
  {
  }

  lemma CreateTempKeepsInv(w: World, s: Run, c: Choice, o: Outcome)
    requires Inv(w, s) && s.pc == Preparing(CreateTemp) && o == StepCreateTemp(w, s, c)
    ensures Inv(o.w, o.s)
  {
    hide MAX_TRIES, MidCapture, Payload;
  }

  lemma PrepareKeepsInv(w: World, s: Run, c: Choice, o: Outcome)
    requires Inv(w, s) && s.pc == Preparing(Prepare) && o == StepPrepare(w, s, c)
    ensures Inv(o.w, o.s)
  {
  }

  lemma WriteBytesKeepsInv(w: World, s: Run, c: Choice, o: Outcome)
    requires Inv(w, s) && s.pc == Preparing(WriteBytes) && o == StepWriteBytes(w, s, c)
    ensures Inv(o.w, o.s)
  {
  }

  lemma SnapTempKeepsInv(w: World, s: Run, o: Outcome)
    requires Inv(w, s) && s.pc == Preparing(SnapTemp) && o == StepSnapTemp(w, s)
    ensures Inv(o.w, o.s)
  {
  }

  lemma SnapSourceKeepsInv(w: World, s: Run, o: Outcome)
    requires Inv(w, s) && s.pc == Preparing(SnapSource) && o == StepSnapSource(w, s)
    ensures Inv(o.w, o.s)
  {
  }

  lemma SnapDestKeepsInv(w: World, s: Run, o: Outcome)
    requires Inv(w, s) && s.pc == Preparing(SnapDest) && o == StepSnapDest(w, s)
    ensures Inv(o.w, o.s)
  {
  }

  lemma ValidateKeepsInv(w: World, s: Run, c: Choice, o: Outcome)
    requires Inv(w, s) && s.pc == Validated(Validate) && o == StepValidate(w, s, c)
    ensures Inv(o.w, o.s)
  {
  }

  lemma RecheckParentKeepsInv(w: World, s: Run, o: Outcome)
    requires Inv(w, s) && s.pc == Validated(RecheckParent) && o == StepRecheckParent(w, s)
    ensures Inv(o.w, o.s)
  {
  }

  lemma TempCheckKeepsInv(w: World, s: Run, o: Outcome)
    requires Inv(w, s) && s.pc == Validated(TempCheck) && o == StepTempCheck(w, s)
    ensures Inv(o.w, o.s)
  {
  }

  lemma OpenSourceKeepsInv(w: World, s: Run, c: Choice, o: Outcome)
    requires Inv(w, s) && s.pc == Validated(OpenSource) && o == StepOpenSource(w, s, c)
    ensures Inv(o.w, o.s)
  {
  }

  lemma PinCheckKeepsInv(w: World, s: Run, o: Outcome)
    requires Inv(w, s) && s.pc == Pinned(PinCheck) && o == StepPinCheck(w, s, s.pin.value)
    ensures Inv(o.w, o.s)
  {
  }

  lemma DestCheckKeepsInv(w: World, s: Run, o: Outcome)
    requires Inv(w, s) && s.pc == Pinned(DestCheck) && o == StepDestCheck(w, s, s.dest.snap.value)
    ensures Inv(o.w, o.s)
  {
    hide Where;
  }

  lemma CapStatKeepsInv(w: World, s: Run, o: Outcome)
    requires Inv(w, s) && s.pc == Capturing(CapStat) && o == StepCapStat(w, s, s.pin.value)
    ensures Inv(o.w, o.s)
  {
    hide Sane, SourceReady;
  }

  lemma ChunkExtendsPrefix(bytes: Bytes, read: Bytes, request: nat, n: nat)
    requires request > 0 && read <= bytes
    ensures read + ReadChunk(bytes, |read|, request, n) <= bytes
  {
  }

  lemma CapReadKeepsCapture(w: World, s: Run, pin: Pin, request: nat, n: nat)
    requires Inv(w, s) && s.pc == Capturing(CapRead) && s.pin == Some(pin) && pin.fd in w.files && request > 0
    ensures var read := pin.read + ReadChunk(w.files[pin.fd].bytes, |pin.read|, request, n);
            if s.cfg.platform.Posix? then CaptureInv(w, pin.(read := read)) else read <= w.files[pin.fd].bytes
  {
    if pin.read <= w.files[pin.fd].bytes {
      ChunkExtendsPrefix(w.files[pin.fd].bytes, pin.read, request, n);
    }
  }

  lemma CapReadKeepsInv(w: World, s: Run, c: Choice, o: Outcome)
    requires Inv(w, s) && s.pc == Capturing(CapRead) && o == StepCapRead(w, s, s.pin.value, c)
    ensures Inv(o.w, o.s)
  {
    hide CaptureInv, ReadChunk, Source, Payload;
    var pin := s.pin.value;
    if |pin.read| <= pin.seen.size && pin.fd in w.files {
      CapReadKeepsCapture(w, s, pin, ReadRequest(pin), c.n);
    }
  }

  lemma CapStatAfterKeepsInv(w: World, s: Run, o: Outcome)
    requires Inv(w, s) && s.pc == Capturing(CapStatAfter) && o == StepCapStatAfter(w, s, s.pin.value)
    ensures Inv(o.w, o.s)
  {
    hide Sane;
  }

  lemma ProveStatKeepsInv(w: World, s: Run, o: Outcome)
    requires Inv(w, s) && s.pc == Proved(ProveStat) && o == StepProveStat(w, s, s.pin.value)
    ensures Inv(o.w, o.s)
  {
  }

  lemma PathCheckKeepsInv(w: World, s: Run, o: Outcome)
    requires Inv(w, s) && s.pc == Proved(PathCheck) && o == StepPathCheck(w, s)
    ensures Inv(o.w, o.s)
  {
  }

  lemma FlushKeepsInv(w: World, s: Run, c: Choice, o: Outcome)
    requires Inv(w, s) && s.pc == Proved(Flush) && o == StepFlush(w, s, c)
    ensures Inv(o.w, o.s)
  {
  }

  lemma RenameKeepsInv(w: World, s: Run, c: Choice, o: Outcome)
    requires Inv(w, s) && s.pc == Proved(Rename) && o == StepRename(w, s, s.pin.value, c)
    ensures Inv(o.w, o.s)
  {
    hide Payload;
  }

  lemma QuarantiningKeepsInv(w: World, s: Run, c: Choice, o: Outcome)
    requires Inv(w, s) && s.pc == Published(Quarantining) && o == StepQuarantining(w, s, s.pin.value, s.commit.published.value, c)
    ensures Inv(o.w, o.s)
  {
    hide Payload;
  }

  lemma FlushAgainKeepsInv(w: World, s: Run, c: Choice, o: Outcome)
    requires Inv(w, s) && s.pc == Published(FlushAgain) && o == StepFlushAgain(w, s, c)
    ensures Inv(o.w, o.s)
  {
  }

  lemma SyncParentKeepsInv(w: World, s: Run, c: Choice, o: Outcome)
    requires Inv(w, s) && s.pc == Ending(SyncParent) && o == StepSyncParent(w, s, c)
    ensures Inv(o.w, o.s)
  {
  }

  lemma CleanupKeepsInv(w: World, s: Run, c: Choice, o: Outcome)
    requires Inv(w, s) && s.pc == Ending(Cleanup) && o == StepCleanup(w, s, c)
    ensures Inv(o.w, o.s)
  {
  }

  lemma PreparingKeepsInv(w: World, s: Run, c: Choice, o: Outcome)
    requires Inv(w, s) && s.pc.Preparing? && o == StepPreparing(w, s, c)
    ensures Inv(o.w, o.s)
  {
    match s.pc.prep
    case OpenParent => OpenParentKeepsInv(w, s, o);
    case CheckParent => CheckParentKeepsInv(w, s, o);
    case CreateTemp => CreateTempKeepsInv(w, s, c, o);
    case Prepare => PrepareKeepsInv(w, s, c, o);
    case WriteBytes => WriteBytesKeepsInv(w, s, c, o);
    case SnapTemp => SnapTempKeepsInv(w, s, o);
    case SnapSource => SnapSourceKeepsInv(w, s, o);
    case SnapDest => SnapDestKeepsInv(w, s, o);
  }

  lemma ValidatedKeepsInv(w: World, s: Run, c: Choice, o: Outcome)
    requires Inv(w, s) && s.pc.Validated? && o == StepValidated(w, s, c)
    ensures Inv(o.w, o.s)
  {
    match s.pc.valid
    case Validate => ValidateKeepsInv(w, s, c, o);
    case RecheckParent => RecheckParentKeepsInv(w, s, o);
    case TempCheck => TempCheckKeepsInv(w, s, o);
    case OpenSource => OpenSourceKeepsInv(w, s, c, o);
  }

  lemma PinnedKeepsInv(w: World, s: Run, c: Choice, o: Outcome)
    requires Inv(w, s) && s.pc.Pinned? && o == StepPinned(w, s)
    ensures Inv(o.w, o.s)
  {
    match s.pc.check
    case PinCheck => PinCheckKeepsInv(w, s, o);
    case DestCheck => DestCheckKeepsInv(w, s, o);
  }

  lemma CapturingKeepsInv(w: World, s: Run, c: Choice, o: Outcome)
    requires Inv(w, s) && s.pc.Capturing? && o == StepCapturing(w, s, c)
    ensures Inv(o.w, o.s)
  {
    match s.pc.capture
    case CapStat => CapStatKeepsInv(w, s, o);
    case CapRead => CapReadKeepsInv(w, s, c, o);
    case CapStatAfter => CapStatAfterKeepsInv(w, s, o);
  }

  lemma ProvedKeepsInv(w: World, s: Run, c: Choice, o: Outcome)
    requires Inv(w, s) && s.pc.Proved? && o == StepProved(w, s, c)
    ensures Inv(o.w, o.s)
  {
    match s.pc.proof
    case ProveStat => ProveStatKeepsInv(w, s, o);
    case PathCheck => PathCheckKeepsInv(w, s, o);
    case Flush => FlushKeepsInv(w, s, c, o);
    case Rename => RenameKeepsInv(w, s, c, o);
  }

  lemma PublishedKeepsInv(w: World, s: Run, c: Choice, o: Outcome)
    requires Inv(w, s) && s.pc.Published? && o == StepPublished(w, s, c)
    ensures Inv(o.w, o.s)
  {
    match s.pc.aftermath
    case Quarantining => QuarantiningKeepsInv(w, s, c, o);
    case FlushAgain => FlushAgainKeepsInv(w, s, c, o);
  }

  lemma EndingKeepsInv(w: World, s: Run, c: Choice, o: Outcome)
    requires Inv(w, s) && s.pc.Ending? && o == StepEnding(w, s, c)
    ensures Inv(o.w, o.s)
  {
    match s.pc.end
    case SyncParent => SyncParentKeepsInv(w, s, c, o);
    case Cleanup => CleanupKeepsInv(w, s, c, o);
    case Done =>
  }

  lemma CloseKeepsInv(w: World, s: Run, o: Outcome)
    requires Inv(w, s) && s.pc == Close && o == StepClose(w, s, s.pin.value)
    ensures Inv(o.w, o.s)
  {
  }

  lemma StepKeepsInv(w: World, s: Run, c: Choice, o: Outcome)
    requires Inv(w, s) && o == Step(w, s, c)
    ensures Inv(o.w, o.s)
  {
    match s.pc
    case Preparing(_) => PreparingKeepsInv(w, s, c, o);
    case Validated(_) => ValidatedKeepsInv(w, s, c, o);
    case Pinned(_) => PinnedKeepsInv(w, s, c, o);
    case Capturing(_) => CapturingKeepsInv(w, s, c, o);
    case Proved(_) => ProvedKeepsInv(w, s, c, o);
    case Published(_) => PublishedKeepsInv(w, s, c, o);
    case Ending(_) => EndingKeepsInv(w, s, c, o);
    case Close => CloseKeepsInv(w, s, o);
  }
}
