/**
 Any number of installer runs, interleaved step by step with each other and with everything
 else that other processes do.
 */
module AtomicRuns {
  import opened Wrappers
  import opened FileSystem
  import opened AtomicInstall
  import opened AtomicPublication

  datatype System = System(world: World, runs: seq<Run>)
  datatype Event = Move(i: nat, c: Choice) | Others(w: World)

  /** Two Windows runs never hold, or hold and write, the same object. */
  ghost predicate Apart(a: Run, b: Run) {
    a.cfg.platform.Windows? ==>
      && HandlesOf(a).exclusive !! HandlesOf(b).exclusive
      && HandlesOf(a).writing !! HandlesOf(b).writing
      && HandlesOf(a).exclusive !! HandlesOf(b).writing
      && HandlesOf(b).exclusive !! HandlesOf(a).writing
  }

  ghost predicate SystemInv(platform: Platform, y: System) {
    && (platform.Posix? ==> Sane(y.world))
    && (forall i | 0 <= i < |y.runs| :: y.runs[i].cfg.platform == platform && Inv(y.world, y.runs[i]))
    && (forall i, j | 0 <= i < |y.runs| && 0 <= j < |y.runs| && i != j :: Apart(y.runs[i], y.runs[j]))
  }

  /** A run that is not `Ready` would be a program error; `SystemInv` shows that none exists. */
  function Advance(w: World, s: Run, c: Choice): Outcome {
    if Ready(s) then Step(w, s, c) else Outcome(w, s)
  }

  function After(y: System, e: Event): System {
    match e
    case Others(w) => System(w, y.runs)
    case Move(i, c) =>
      if i < |y.runs| then
        var o := Advance(y.world, y.runs[i], c);
        System(o.w, y.runs[i := o.s])
      else y
  }

  function Final(y: System, es: seq<Event>): System
    decreases |es|
  {
    if es == [] then y else Final(After(y, es[0]), es[1..])
  }

  /** Other processes respect stamps and handles, and leave POSIX runs alone between proof and rename. */
  ghost predicate Allowed(platform: Platform, y: System, e: Event) {
    && (e.Others? ==> (platform.Posix? ==> Stamped(y.world, e.w)))
    && (e.Others? ==> forall j | 0 <= j < |y.runs| :: Interference(platform, y.world, e.w, HandlesOf(y.runs[j])))
    && (forall j | 0 <= j < |y.runs| && !(e.Move? && e.i == j) :: Quiet(y.world, After(y, e).world, y.runs[j]))
  }

  ghost predicate Execution(platform: Platform, y: System, es: seq<Event>)
    decreases |es|
  {
    es != [] ==> Allowed(platform, y, es[0]) && Execution(platform, After(y, es[0]), es[1..])
  }

  // ---- a step of one run is mere interference for every other run ----------------------

  lemma PreparingIsStamped(w: World, s: Run, c: Choice)
    requires Inv(w, s) && s.cfg.platform.Posix? && s.pc.Preparing?
    ensures Stamped(w, StepPreparing(w, s, c).w)
  {
    hide PublicationInv, DestinationInv;
  }

  lemma ValidatedKeepsFiles(w: World, s: Run, c: Choice)
    requires s.pc.Validated?
    ensures
      var w' := StepValidated(w, s, c).w;
      w'.names == w.names && w'.files == w.files && w'.clock == w.clock
  {
  }

  lemma PinnedKeepsFiles(w: World, s: Run)
    requires Ready(s) && s.pc.Pinned?
    ensures StepPinned(w, s).w == w
  {
  }

  lemma CapturingKeepsFiles(w: World, s: Run, c: Choice)
    requires Ready(s) && s.pc.Capturing?
    ensures StepCapturing(w, s, c).w == w
  {
  }

  lemma ProvedKeepsFiles(w: World, s: Run, c: Choice)
    requires Ready(s) && s.pc.Proved?
    ensures StepProved(w, s, c).w.files == w.files && StepProved(w, s, c).w.clock == w.clock
  {
  }

  lemma StepIsStamped(w: World, s: Run, c: Choice, o: Outcome)
    requires Inv(w, s) && s.cfg.platform.Posix? && o == Step(w, s, c)
    ensures Stamped(w, o.w)
  {
    hide StepPreparing, StepValidated, StepPinned, StepCapturing, StepProved;
    match s.pc
    case Preparing(_) => PreparingIsStamped(w, s, c);
    case Validated(_) => ValidatedKeepsFiles(w, s, c);
    case Pinned(_) => PinnedKeepsFiles(w, s);
    case Capturing(_) => CapturingKeepsFiles(w, s, c);
    case Proved(_) => ProvedKeepsFiles(w, s, c);
    case _ =>
  }

  ghost predicate OnWindows(w: World, s: Run, other: Run) {
    && Inv(w, s) && Inv(w, other)
    && s.cfg.platform.Windows? && other.cfg.platform.Windows? && Apart(s, other)
  }

  ghost predicate Respects(w: World, o: Outcome, other: Run) {
    Interference(Windows, w, o.w, HandlesOf(other)) && Apart(o.s, other)
  }

  lemma CreateRespectsLocks(w: World, s: Run, c: Choice, o: Outcome, other: Run)
    requires OnWindows(w, s, other) && s.pc == Preparing(CreateTemp) && o == StepCreateTemp(w, s, c)
    ensures Respects(w, o, other)
  {
  }

  /** A step that changes nothing in the world and takes no new handle. */
  lemma IdleRespectsLocks(w: World, s: Run, o: Outcome, other: Run)
    requires OnWindows(w, s, other) && o.w == w && o.s.cfg == s.cfg
    requires HandlesOf(o.s).exclusive <= HandlesOf(s).exclusive && HandlesOf(o.s).writing <= HandlesOf(s).writing
    ensures Respects(w, o, other)
  {
    hide PublicationInv, DestinationInv, CaptureInv;
  }

  lemma WritingRespectsLocks(w: World, s: Run, c: Choice, o: Outcome, other: Run)
    requires OnWindows(w, s, other) && (s.pc == Preparing(Prepare) || s.pc == Preparing(WriteBytes)) && o == StepPreparing(w, s, c)
    ensures Respects(w, o, other)
  {
    hide Overlay, DestinationInv, PublicationInv, CaptureInv;
  }

  lemma PreparingRespectsLocks(w: World, s: Run, c: Choice, o: Outcome, other: Run)
    requires OnWindows(w, s, other) && s.pc.Preparing? && s.pc != Preparing(CreateTemp) && o == StepPreparing(w, s, c)
    ensures Respects(w, o, other)
  {
    hide Respects, StatPath, Overlay, DestinationInv, PublicationInv, WindowsInv;
    if s.pc == Preparing(Prepare) || s.pc == Preparing(WriteBytes) {
      WritingRespectsLocks(w, s, c, o, other);
    } else {
      IdleRespectsLocks(w, s, o, other);
    }
  }

  lemma OpenSourceRespectsLocks(w: World, s: Run, c: Choice, o: Outcome, other: Run)
    requires OnWindows(w, s, other) && s.pc == Validated(OpenSource) && o == StepOpenSource(w, s, c)
    ensures Respects(w, o, other)
  {
    hide PublicationInv, DestinationInv, CaptureInv;
  }

  lemma ValidatedRespectsLocks(w: World, s: Run, c: Choice, o: Outcome, other: Run)
    requires OnWindows(w, s, other) && s.pc.Validated? && o == StepValidated(w, s, c)
    ensures Respects(w, o, other)
  {
    hide Respects, StatPath, StepOpenSource, DestinationInv, PublicationInv, WindowsInv;
    if s.pc == Validated(OpenSource) {
      OpenSourceRespectsLocks(w, s, c, o, other);
    } else {
      IdleRespectsLocks(w, s, o, other);
    }
  }

  lemma RenameRespectsLocks(w: World, s: Run, c: Choice, o: Outcome, other: Run)
    requires OnWindows(w, s, other) && s.pc == Proved(Rename) && o == StepRename(w, s, s.pin.value, c)
    ensures Respects(w, o, other)
  {
    hide PublicationInv, DestinationInv, CaptureInv;
  }

  lemma ProvedRespectsLocks(w: World, s: Run, c: Choice, o: Outcome, other: Run)
    requires OnWindows(w, s, other) && s.pc.Proved? && o == StepProved(w, s, c)
    ensures Respects(w, o, other)
  {
    hide Respects, StatPath, StatDescriptor, StepRename, DestinationInv, PublicationInv, WindowsInv;
    if s.pc == Proved(Rename) {
      RenameRespectsLocks(w, s, c, o, other);
    } else {
      IdleRespectsLocks(w, s, o, other);
    }
  }

  lemma PinnedRespectsLocks(w: World, s: Run, o: Outcome, other: Run)
    requires OnWindows(w, s, other) && s.pc.Pinned? && o == StepPinned(w, s)
    ensures Respects(w, o, other)
  {
    hide Respects, StatPath, StatDescriptor, DestinationInv, PublicationInv, WindowsInv;
    IdleRespectsLocks(w, s, o, other);
  }

  lemma CapturingRespectsLocks(w: World, s: Run, c: Choice, o: Outcome, other: Run)
    requires OnWindows(w, s, other) && s.pc.Capturing? && o == StepCapturing(w, s, c)
    ensures Respects(w, o, other)
  {
    hide Respects, StatDescriptor, ReadRequest, DestinationInv, PublicationInv, WindowsInv;
    IdleRespectsLocks(w, s, o, other);
  }

  lemma PublishedRespectsLocks(w: World, s: Run, c: Choice, o: Outcome, other: Run)
    requires OnWindows(w, s, other) && s.pc.Published? && o == StepPublished(w, s, c)
    ensures Respects(w, o, other)
  {
  }

  lemma CloseRespectsLocks(w: World, s: Run, c: Choice, o: Outcome, other: Run)
    requires OnWindows(w, s, other) && s.pc == Close && o == StepClose(w, s, s.pin.value)
    ensures Respects(w, o, other)
  {
  }

  lemma EndingRespectsLocks(w: World, s: Run, c: Choice, o: Outcome, other: Run)
    requires OnWindows(w, s, other) && s.pc.Ending? && o == StepEnding(w, s, c)
    ensures Respects(w, o, other)
  {
  }

  lemma StepRespectsLocks(w: World, s: Run, c: Choice, o: Outcome, other: Run)
    requires OnWindows(w, s, other) && o == Step(w, s, c)
    ensures Respects(w, o, other)
  {
    match s.pc
    case Preparing(CreateTemp) => CreateRespectsLocks(w, s, c, o, other);
    case Preparing(_) => PreparingRespectsLocks(w, s, c, o, other);
    case Validated(_) => ValidatedRespectsLocks(w, s, c, o, other);
    case Pinned(_) => PinnedRespectsLocks(w, s, o, other);
    case Capturing(_) => CapturingRespectsLocks(w, s, c, o, other);
    case Proved(_) => ProvedRespectsLocks(w, s, c, o, other);
    case Published(_) => PublishedRespectsLocks(w, s, c, o, other);
    case Close => CloseRespectsLocks(w, s, c, o, other);
    case Ending(_) => EndingRespectsLocks(w, s, c, o, other);
  }

  // ---- one event --------------------------------------------------------------------------

  lemma StepKeepsPlatform(w: World, s: Run, c: Choice)
    requires Ready(s)
    ensures Step(w, s, c).s.cfg == s.cfg
  {
  }

  /** The mover's invariant and everybody else's survive one step of run `i`. */
  lemma MoveKeepsOther(platform: Platform, y: System, i: nat, c: Choice, j: nat)
    requires SystemInv(platform, y) && i < |y.runs| && j < |y.runs| && i != j
    requires Quiet(y.world, Step(y.world, y.runs[i], c).w, y.runs[j])
    ensures Inv(Step(y.world, y.runs[i], c).w, y.runs[j])
    ensures Apart(Step(y.world, y.runs[i], c).s, y.runs[j])
  {
    var o := Step(y.world, y.runs[i], c);
    if platform.Posix? {
      StepKeepsPlatform(y.world, y.runs[i], c);
      StepIsStamped(y.world, y.runs[i], c, o);
    } else {
      StepRespectsLocks(y.world, y.runs[i], c, o, y.runs[j]);
    }
    InterferenceKeepsInv(y.world, o.w, y.runs[j]);
  }

  lemma EventKeepsInv(platform: Platform, y: System, e: Event)
    requires SystemInv(platform, y) && Allowed(platform, y, e)
    ensures SystemInv(platform, After(y, e))
  {
    var y' := After(y, e);
    match e {
      case Others(w) =>
        forall j | 0 <= j < |y.runs| ensures Inv(w, y.runs[j]) {
          InterferenceKeepsInv(y.world, w, y.runs[j]);
        }
      case Move(i, c) =>
        if i < |y.runs| {
          var o := Step(y.world, y.runs[i], c);
          StepKeepsInv(y.world, y.runs[i], c, o);
          StepKeepsPlatform(y.world, y.runs[i], c);
          if platform.Posix? { StepIsStamped(y.world, y.runs[i], c, o); }
          forall j | 0 <= j < |y.runs| && j != i
            ensures Inv(o.w, y.runs[j]) && Apart(o.s, y.runs[j]) && Apart(y.runs[j], o.s)
          {
            MoveKeepsOther(platform, y, i, c, j);
          }
        }
    }
  }

  // ---- whole executions ---------------------------------------------------------------------

  ghost predicate Initial(platform: Platform, y: System) {
    && (platform.Posix? ==> Sane(y.world))
    && forall i | 0 <= i < |y.runs| :: y.runs[i].cfg.platform == platform && y.runs[i] == Start(y.runs[i].cfg)
  }

  lemma InitialInv(platform: Platform, y: System)
    requires Initial(platform, y)
    ensures SystemInv(platform, y)
  {
    forall i | 0 <= i < |y.runs| ensures Inv(y.world, y.runs[i]) {
      StartInv(y.world, y.runs[i].cfg);
    }
  }

  lemma {:induction false} ExecutionKeepsInv(platform: Platform, y: System, es: seq<Event>)
    requires SystemInv(platform, y) && Execution(platform, y, es)
    ensures SystemInv(platform, Final(y, es))
    ensures |Final(y, es).runs| == |y.runs|
    ensures forall i | 0 <= i < |y.runs| :: Final(y, es).runs[i].cfg == y.runs[i].cfg
    decreases |es|
  {
    if es != [] {
      EventKeepsInv(platform, y, es[0]);
      if es[0].Move? && es[0].i < |y.runs| {
        StepKeepsPlatform(y.world, y.runs[es[0].i], es[0].c);
      }
      ExecutionKeepsInv(platform, After(y, es[0]), es[1..]);
    }
  }

  /**
   Main result. However the runs and the rest of the world interleave: a run that publishes made
   its target name an object holding exactly its payload; a run that returns normally has
   published; a run that saw no destination overwrote nothing; and a run that replaced a
   destination found, at its last check, the very generation captured before the validator ran.
   */
  lemma ExactPublication(platform: Platform, y: System, es: seq<Event>, i: nat)
    requires Initial(platform, y) && Execution(platform, y, es) && i < |y.runs|
    ensures |Final(y, es).runs| == |y.runs|
    ensures
      var s := Final(y, es).runs[i];
      && s.cfg == y.runs[i].cfg
      && (s.commit.published.Some? ==> s.commit.published.value.file.bytes == Payload(y.runs[i].cfg))
      && (s.pc == Ending(Done) && !s.failed ==> s.commit.published.Some? && s.commit.quarantine.NotNeeded?)
      && (s.commit.published.Some? && s.dest.snap.None? ==> s.commit.published.value.over.None?)
      && (s.commit.published.Some? && s.dest.snap.Some? ==> CheckedDestination(platform, s.dest))
  {
    InitialInv(platform, y);
    ExecutionKeepsInv(platform, y, es);
  }

  lemma PreparingPublishesNothing(w: World, s: Run, c: Choice)
    requires s.pc.Preparing?
    ensures StepPreparing(w, s, c).s.commit == s.commit
  {
  }

  lemma ValidatedPublishesNothing(w: World, s: Run, c: Choice)
    requires s.pc.Validated?
    ensures StepValidated(w, s, c).s.commit == s.commit
  {
  }

  lemma PinnedPublishesNothing(w: World, s: Run)
    requires Ready(s) && s.pc.Pinned?
    ensures StepPinned(w, s).s.commit == s.commit
  {
  }

  lemma CapturingPublishesNothing(w: World, s: Run, c: Choice)
    requires Ready(s) && s.pc.Capturing?
    ensures
      var commit := StepCapturing(w, s, c).s.commit;
      commit.published == s.commit.published && commit.quarantine == s.commit.quarantine
  {
  }

  /** Only the rename step publishes. */
  lemma OnlyRenamePublishes(w: World, s: Run, c: Choice, o: Outcome)
    requires Ready(s) && o == Step(w, s, c)
    requires s.commit.published.None? && o.s.commit.published.Some?
    ensures s.pc == Proved(Rename) && s.pin.Some? && o == StepRename(w, s, s.pin.value, c)
  {
    hide StepPreparing, StepValidated, StepPinned, StepCapturing, StepRename, StatPath, StatDescriptor;
    match s.pc
    case Preparing(_) => PreparingPublishesNothing(w, s, c);
    case Validated(_) => ValidatedPublishesNothing(w, s, c);
    case Pinned(_) => PinnedPublishesNothing(w, s);
    case Capturing(_) => CapturingPublishesNothing(w, s, c);
    case _ =>
  }

  /**
   What publishing means, at the one step that does it: the target leads to the object, nothing
   but the source and the target name moves, and no content changes.
   */
  lemma PublicationStep(w: World, s: Run, c: Choice, o: Outcome)
    requires Inv(w, s) && o == Step(w, s, c)
    requires s.commit.published.None? && o.s.commit.published.Some?
    ensures s.pc == Proved(Rename)
    ensures
      var p := o.s.commit.published.value;
      && p.entry == Target(w, s) && Bound(o.w, p.entry) == Some(p.id) && Bound(w, p.entry) == p.over
      && p.id in o.w.files && o.w.files[p.id] == p.file && p.file.bytes == Payload(s.cfg)
      && o.w.files == w.files
      && forall e | e != p.entry && e != (if s.cfg.platform.Posix? then Source(w, s) else s.pin.value.from) ::
           Bound(o.w, e) == Bound(w, e)
  {
    OnlyRenamePublishes(w, s, c, o);
  }

  /**
   Windows: from publication to release of the exclusive handle nobody else can open the object,
   and at release the target leads to an object that was captured again and matched, or the
   object sits under a quarantine name, or the quarantine itself failed; the latter two raise.
   */
  lemma WindowsCommitProof(y: System, es: seq<Event>, i: nat)
    requires Initial(Windows, y) && Execution(Windows, y, es) && i < |y.runs|
    ensures |Final(y, es).runs| == |y.runs|
    ensures
      var w, s := Final(y, es).world, Final(y, es).runs[i];
      s.commit.published.Some? && s.pin.Some? ==>
        var p, fd := s.commit.published.value, s.pin.value.fd;
        && fd in w.held && fd in w.files && w.files[fd].bytes == Payload(s.cfg)
        && (s.commit.quarantine.NotNeeded? ==> Bound(w, p.entry) == Some(fd))
        && (s.commit.quarantine.Moved? ==> s.failed && Bound(w, s.commit.quarantine.to) == Some(fd))
        && (s.commit.quarantine.Stuck? ==> s.failed)
        && (s.pc == Close && s.commit.quarantine.NotNeeded? ==> s.commit.proved)
  {
    InitialInv(Windows, y);
    ExecutionKeepsInv(Windows, y, es);
  }

  /** A quarantined object gets a name nobody had, and its consumer name leads nowhere. */
  lemma QuarantineStep(w: World, s: Run, c: Choice, o: Outcome)
    requires Inv(w, s) && s.pc == Published(Quarantining) && o == Step(w, s, c)
    requires o.s.commit.quarantine.Moved?
    ensures
      var q, entry := o.s.commit.quarantine.to, s.commit.published.value.entry;
      && q !in w.names && Bound(o.w, q) == Some(s.pin.value.fd)
      && entry !in o.w.names && o.s.failed
      && forall e | e != q && e != entry :: Bound(o.w, e) == Bound(w, e)
  {
  }
}
