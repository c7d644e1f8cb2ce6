/**
 What a Windows run may touch, over whole executions and whatever everybody else does: its tempfile,
 the target, and at most one quarantine name.
 */
module AtomicWindowsFrame {
  import opened Wrappers
  import opened FileSystem
  import opened AtomicInstall
  import opened AtomicRuns
  import opened AtomicFrame

  /** Where a Windows run can be, and what its descriptor and its publication are about. */
  predicate Tidy(s: Run) {
    && s.cfg.platform.Windows?
    && (s.pin.Some? ==> s.pin.value.from.name == s.temp && Settled(s))
    && (match s.commit.published
        case None => s.commit.quarantine.NotNeeded?
        case Some(p) => p.entry.name == s.cfg.target && !s.pc.Preparing? && !s.pc.Validated? && !s.pc.Pinned? && !s.pc.Proved?)
    && (s.commit.quarantine.Moved? ==> s.pc == Close || s.pc.Ending?)
    && (s.cfg.task.Install? && s.pc.Preparing? ==>
          s.pc.prep.OpenParent? || s.pc.prep.CheckParent? || s.pc.prep.SnapSource? || s.pc.prep.SnapDest?)
  }

  /** The tempfile or source name, the target, and the one quarantine name there may be. */
  predicate OwnName(s: Run, e: Entry) {
    e.name == s.temp || e.name == s.cfg.target || s.commit.quarantine == Moved(e)
  }

  /** What one step of a Windows run may change. */
  ghost predicate Kept(w: World, s: Run, o: Outcome) {
    && Tidy(o.s)
    && (s.commit.quarantine.Moved? ==> o.s.commit.quarantine == s.commit.quarantine)
    && (forall e | e in Changed(w, o.w) :: Settled(o.s) && OwnName(o.s, e))
    && (forall id | id in ChangedObjects(w, o.w) :: Settled(o.s) && s.cfg.task.Write? && id == o.s.tempId)
  }

  lemma QuietKept(w: World, s: Run, o: Outcome)
    requires Tidy(o.s) && o.w.names == w.names && o.w.files == w.files
    requires s.commit.quarantine.Moved? ==> o.s.commit.quarantine == s.commit.quarantine
    ensures Kept(w, s, o)
  {
  }

  lemma CreateTempKept(w: World, s: Run, c: Choice)
    requires Tidy(s) && Ready(s) && s.pc == Preparing(CreateTemp)
    ensures Kept(w, s, StepCreateTemp(w, s, c))
  {
  }

  lemma WriteBytesKept(w: World, s: Run, c: Choice)
    requires Tidy(s) && Ready(s) && s.pc == Preparing(WriteBytes)
    ensures Kept(w, s, StepWriteBytes(w, s, c))
  {
    hide Overlay;
  }

  lemma PreparingKept(w: World, s: Run, c: Choice)
    requires Tidy(s) && Ready(s) && s.pc.Preparing?
    ensures Kept(w, s, StepPreparing(w, s, c))
  {
    hide Kept, StepCreateTemp, StepWriteBytes, StatPath;
    match s.pc.prep
    case CreateTemp => CreateTempKept(w, s, c);
    case WriteBytes => WriteBytesKept(w, s, c);
    case _ => QuietKept(w, s, StepPreparing(w, s, c));
  }

  lemma ValidatedKept(w: World, s: Run, c: Choice)
    requires Tidy(s) && Ready(s) && s.pc.Validated?
    ensures Kept(w, s, StepValidated(w, s, c))
  {
    hide Kept, StatPath;
    QuietKept(w, s, StepValidated(w, s, c));
  }

  lemma PinnedKept(w: World, s: Run)
    requires Tidy(s) && Ready(s) && s.pc.Pinned?
    ensures Kept(w, s, StepPinned(w, s))
  {
  }

  lemma CapStatKept(w: World, s: Run)
    requires Tidy(s) && Ready(s) && s.pc == Capturing(CapStat)
    ensures Kept(w, s, StepCapStat(w, s, s.pin.value))
  {
    hide Kept, StatDescriptor;
    QuietKept(w, s, StepCapStat(w, s, s.pin.value));
  }

  lemma CapReadKept(w: World, s: Run, c: Choice)
    requires Tidy(s) && Ready(s) && s.pc == Capturing(CapRead)
    ensures Kept(w, s, StepCapRead(w, s, s.pin.value, c))
  {
    hide Kept, ReadRequest;
    QuietKept(w, s, StepCapRead(w, s, s.pin.value, c));
  }

  lemma CapStatAfterKept(w: World, s: Run)
    requires Tidy(s) && Ready(s) && s.pc == Capturing(CapStatAfter)
    ensures Kept(w, s, StepCapStatAfter(w, s, s.pin.value))
  {
    hide Kept, StatDescriptor;
    QuietKept(w, s, StepCapStatAfter(w, s, s.pin.value));
  }

  lemma CapturingKept(w: World, s: Run, c: Choice)
    requires Tidy(s) && Ready(s) && s.pc.Capturing?
    ensures Kept(w, s, StepCapturing(w, s, c))
  {
    hide Kept, StepCapStat, StepCapRead, StepCapStatAfter;
    match s.pc.capture
    case CapStat => CapStatKept(w, s);
    case CapRead => CapReadKept(w, s, c);
    case CapStatAfter => CapStatAfterKept(w, s);
  }

  lemma RenameKept(w: World, s: Run, c: Choice)
    requires Tidy(s) && Ready(s) && s.pc == Proved(Rename)
    ensures Kept(w, s, StepRename(w, s, s.pin.value, c))
  {
  }

  lemma ProvedKept(w: World, s: Run, c: Choice)
    requires Tidy(s) && Ready(s) && s.pc.Proved?
    ensures Kept(w, s, StepProved(w, s, c))
  {
    match s.pc.proof
    case Rename => RenameKept(w, s, c);
    case _ =>
  }

  lemma PublishedKept(w: World, s: Run, c: Choice)
    requires Tidy(s) && Ready(s) && s.pc.Published?
    ensures Kept(w, s, StepPublished(w, s, c))
  {
    hide MAX_TRIES, QuarantineName;
  }

  lemma CleanupKept(w: World, s: Run, c: Choice)
    requires Tidy(s) && s.pc == Ending(Cleanup)
    ensures Kept(w, s, StepCleanup(w, s, c))
  {
  }

  lemma EndKept(w: World, s: Run, c: Choice)
    requires Tidy(s) && Ready(s) && (s.pc == Close || s.pc.Ending?)
    ensures Kept(w, s, Step(w, s, c))
  {
    hide Kept, StepCleanup;
    if s.pc == Ending(Cleanup) {
      assert Step(w, s, c) == StepCleanup(w, s, c);
      CleanupKept(w, s, c);
    } else {
      QuietKept(w, s, Step(w, s, c));
    }
  }

  lemma StepKept(w: World, s: Run, c: Choice)
    requires Tidy(s)
    ensures Kept(w, s, Advance(w, s, c))
  {
    if Ready(s) {
      match s.pc
      case Preparing(_) => PreparingKept(w, s, c);
      case Validated(_) => ValidatedKept(w, s, c);
      case Pinned(_) => PinnedKept(w, s);
      case Capturing(_) => CapturingKept(w, s, c);
      case Proved(_) => ProvedKept(w, s, c);
      case Published(_) => PublishedKept(w, s, c);
      case _ => EndKept(w, s, c);
    }
  }

  lemma {:induction false} TidyRunTouchesOnlyItsOwn(y: System, es: seq<Event>, i: nat)
    requires i < |y.runs| && Tidy(y.runs[i])
    ensures |Final(y, es).runs| == |y.runs| && Tidy(Final(y, es).runs[i])
    ensures y.runs[i].commit.quarantine.Moved? ==> Final(y, es).runs[i].commit.quarantine == y.runs[i].commit.quarantine
    ensures
      var s := Final(y, es).runs[i];
      && (forall e | e in Touched(y, es, i) :: OwnName(s, e))
      && (forall id | id in TouchedObjects(y, es, i) :: s.cfg.task.Write? && id == s.tempId)
    decreases |es|
  {
    if es != [] {
      var y' := After(y, es[0]);
      SettledForGood(y', es[1..], i);
      if es[0].Move? && es[0].i == i {
        StepKept(y.world, y.runs[i], es[0].c);
      }
      StepKeepsTask(y, es[0], i);
      TidyRunTouchesOnlyItsOwn(y', es[1..], i);
    }
  }

  lemma StepKeepsTask(y: System, e: Event, i: nat)
    requires i < |y.runs|
    ensures |After(y, e).runs| == |y.runs| && After(y, e).runs[i].cfg == y.runs[i].cfg
  {
    if e.Move? && e.i == i && Ready(y.runs[i]) { StepContinues(y.world, y.runs[i], e.c); }
  }

  /**
   A whole Windows run from its start, over any execution with any interference: it touches only the
   name of its tempfile (or of the source it installs), the target, and at most one further name,
   under which it then has the object in quarantine; and no object but its tempfile.
   */
  lemma WindowsRun(y: System, es: seq<Event>, i: nat)
    requires i < |y.runs| && y.runs[i] == Start(y.runs[i].cfg) && y.runs[i].cfg.platform.Windows?
    ensures |Final(y, es).runs| == |y.runs| && Final(y, es).runs[i].cfg == y.runs[i].cfg
    ensures
      var s := Final(y, es).runs[i];
      && (forall e | e in Touched(y, es, i) ::
            e.name == s.temp || e.name == s.cfg.target || s.commit.quarantine == Moved(e))
      && (forall id | id in TouchedObjects(y, es, i) :: s.cfg.task.Write? && id == s.tempId)
  {
    SettledForGood(y, es, i);
    TidyRunTouchesOnlyItsOwn(y, es, i);
  }
}
